/** Exactly when a second run of the Spring Boot convention server changes nothing, as read off the
    template before the first. */
module ExactConvergence {
  import opened Wrappers
  import opened Text
  import opened Core
  import opened SpringProperties
  import opened RoundTrips
  import opened SpringBoot
  import opened Convergence
  import opened SpringRuns
  import opened RunConvergence

  // ----- the actuator's announcement -----

  /** No service intent uses the annotation of the actuator. */
  predicate AnnouncesOnce(cs: seq<Convention>) {
    forall k | 0 <= k < |cs| && cs[k].ServiceIntent? :: cs[k].labelName != ACTUATOR_URI
  }

  predicate DifferAt(a: map<string, string>, b: map<string, string>, key: string) {
    a.Keys == b.Keys && forall k | k in a && k != key :: a[k] == b[k]
  }

  lemma DifferMerged(a: map<string, string>, b: map<string, string>, c: map<string, string>, d: map<string, string>,
                     key: string)
    requires DifferAt(a, b, key) && DifferAt(c, d, key)
    ensures DifferAt(a + c, b + d, key)
  {
  }

  /** The map announces this URI, or nothing. */
  predicate AnnouncesUri(a: map<string, string>, announced: bool, uri: string) {
    (ACTUATOR_URI in a <==> announced) && (announced ==> a[ACTUATOR_URI] == uri)
  }

  lemma AnnouncesMerged(a: map<string, string>, b: map<string, string>, first: bool, second: bool, uri: string)
    requires AnnouncesUri(a, first, uri) && AnnouncesUri(b, second, uri)
    ensures AnnouncesUri(a + b, first || second, uri)
  {
  }

  lemma {:induction false} AnnotationsOfStep(cs: seq<Convention>, p: Properties, q: Properties, f: Facts)
    requires AnnouncesOnce(cs)
    ensures var a, b := AllAnnotationWrites(cs, p, f), AllAnnotationWrites(cs, q, f);
      AnnouncesUri(a, Applies(cs, Actuator, f), ManagementUri(p)) && DifferAt(a, b, ACTUATOR_URI)
  {
    if cs != [] {
      var announced := IsApplicable(cs[0], f) && cs[0].Actuator?;
      var a := if IsApplicable(cs[0], f) then AnnotationWrites(cs[0], p, f) else map[];
      var b := if IsApplicable(cs[0], f) then AnnotationWrites(cs[0], q, f) else map[];
      assert cs == [cs[0]] + cs[1..];
      assert forall k | 0 <= k < |cs[1..]| :: cs[1..][k] == cs[k + 1];
      AnnotationsOfStep(cs[1..], p, q, f);
      AnnotationsOfOne(cs[0], p, q, f);
      AnnouncesMerged(a, AllAnnotationWrites(cs[1..], p, f), announced, Applies(cs[1..], Actuator, f),
                      ManagementUri(p));
      DifferMerged(a, b, AllAnnotationWrites(cs[1..], p, f), AllAnnotationWrites(cs[1..], q, f), ACTUATOR_URI);
    }
  }

  lemma AnnotationsOfOne(c: Convention, p: Properties, q: Properties, f: Facts)
    requires c.ServiceIntent? ==> c.labelName != ACTUATOR_URI
    ensures var a, b := AnnotationWrites(c, p, f), AnnotationWrites(c, q, f);
      AnnouncesUri(a, c.Actuator?, ManagementUri(p)) && DifferAt(a, b, ACTUATOR_URI)
  {
    assert |ACTUATOR_URI| != |"boot.spring.io/version"|;
  }

  predicate Announces(s: Server, t: PodTemplate, i: nat)
    requires i < |t.containers|
  {
    t.containers[i].image in s.images && Applies(s.conventions, Actuator, FactsAt(s, t, i))
  }

  /** What the last container with an actuator announces. */
  function UriFrom(s: Server, t: PodTemplate, i: nat, ps: seq<Option<Properties>>): Option<string>
    requires i <= |t.containers| && |ps| == |t.containers| - i
    decreases |ps|
  {
    if ps == [] then None
    else
      var later := UriFrom(s, t, i + 1, ps[1..]);
      if later.Some? then later
      else if Announces(s, t, i) && ps[0].Some? then Some(ManagementUri(ps[0].value))
      else None
  }

  predicate SamePlaces(ps: seq<Option<Properties>>, qs: seq<Option<Properties>>) {
    |ps| == |qs| && forall k | 0 <= k < |ps| :: ps[k].Some? <==> qs[k].Some?
  }

  /** Two lists of printed properties lead to annotations that differ in the announcement at most. */
  lemma {:induction false} AnnotationsOfRun(s: Server, t: PodTemplate, i: nat, ps: seq<Option<Properties>>,
                                            qs: seq<Option<Properties>>)
    requires i <= |t.containers| && |ps| == |t.containers| - i && SamePlaces(ps, qs) && AnnouncesOnce(s.conventions)
    ensures var a, b := AnnotationsFrom(s, t, i, ps), AnnotationsFrom(s, t, i, qs);
      && UriFrom(s, t, i, ps) == (if ACTUATOR_URI in a then Some(a[ACTUATOR_URI]) else None)
      && DifferAt(a, b, ACTUATOR_URI)
    decreases |ps|
  {
    if ps != [] {
      AnnotationsOfRun(s, t, i + 1, ps[1..], qs[1..]);
      if HasMetadata(s, t, i) && ps[0].Some? {
        AnnotationsOfStep(s.conventions, ps[0].value, qs[0].value, FactsAt(s, t, i));
      }
      DifferMerged(StepAnnotations(s, t, i, ps[0]), StepAnnotations(s, t, i, qs[0]),
                   AnnotationsFrom(s, t, i + 1, ps[1..]), AnnotationsFrom(s, t, i + 1, qs[1..]), ACTUATOR_URI);
    }
  }

  lemma MergeSameKeys(x: map<string, string>, a: map<string, string>, b: map<string, string>, key: string)
    requires DifferAt(a, b, key)
    ensures (x + a) + b == x + a <==> (key in a ==> a[key] == b[key])
  {
    if key in a {
      assert ((x + a) + b)[key] == b[key] && (x + a)[key] == a[key];
    }
    if key in a ==> a[key] == b[key] {
      assert a == b;
      MergeTwice(x, a);
    }
  }

  // ----- what a settled text reads back -----

  /** q has the values of p, the last one trimmed. */
  ghost predicate KeepsValues(p: Properties, q: Properties) {
    forall k | k in p :: k in q && q[k] == TrimLast(p)[k]
  }

  /** Any further key of q comes before those of p. */
  ghost predicate ReadsBack(p: Properties, q: Properties) {
    && KeepsValues(p, q)
    && (forall k, j | k in q && k !in p && j in p :: Less(k, j))
  }

  lemma RereadKeepsValues(keep: seq<string>, p: Properties)
    ensures KeepsValues(p, Reread(keep, p).properties)
  {
  }

  lemma SettledReadsBack(keep: seq<string>, p: Properties)
    requires Settles(keep, p)
    ensures ReadsBack(p, Reread(keep, p).properties)
  {
    var head := Head(keep, p);
    RereadKeepsValues(keep, p);
    if head != [] && IsProperty(head[0]) {
      LessIrreflexive(KeyValue(head[0]).0);
    }
  }

  lemma ValueStays(p: Properties, q: Properties, key: string)
    requires KeepsValues(p, q) && key in p && (NoSpaceAtEnd(p[key]) || !IsLastKey(p, key))
    ensures key in q && q[key] == p[key]
  {
  }

  lemma NumbersAreTrimmed(value: string)
    requires Atoi(value).Some?
    ensures NoSpaceAtEnd(value)
  {
    assert IsDigit(value[|value| - 1]);
  }

  lemma {:induction false} LessAt(a: string, b: string, n: nat)
    requires n < |a| && n < |b| && a[..n] == b[..n] && a[n] < b[n]
    ensures Less(a, b)
  {
    if n > 0 {
      assert a[0] == a[..n][0] && b[0] == b[..n][0];
      assert a[1..][..n - 1] == a[..n][1..] && b[1..][..n - 1] == b[..n][1..];
      LessAt(a[1..], b[1..], n - 1);
    }
  }

  lemma ProbesBeforePort()
    ensures Less(PROBES_ENABLED, MANAGEMENT_PORT)
  {
    LessAt(PROBES_ENABLED, MANAGEMENT_PORT, 11);
  }

  lemma PortBeforeSsl()
    ensures Less(MANAGEMENT_PORT, MANAGEMENT_SSL)
  {
    LessAt(MANAGEMENT_PORT, MANAGEMENT_SSL, 18);
  }

  lemma BeforeIsNotLast(p: Properties, key: string, later: string)
    requires later in p && Less(key, later)
    ensures !IsLastKey(p, key)
  {
    if IsLastKey(p, key) {
      LessTransitive(key, later, key);
      LessIrreflexive(key);
    }
  }

  lemma GraceReadsBack(t: PodTemplate, p: Properties, q: Properties, j: nat)
    requires j < |t.containers| && KeepsValues(p, q) && Settled(GracefulShutdown, t, p, j)
    ensures Settled(GracefulShutdown, t, q, j)
  {
    ValueStays(p, q, SHUTDOWN_GRACE);
  }

  lemma WebReadsBack(t: PodTemplate, p: Properties, q: Properties, j: nat)
    requires j < |t.containers| && KeepsValues(p, q) && Settled(Web, t, p, j)
    ensures Settled(Web, t, q, j)
  {
    NumbersAreTrimmed(p[SERVER_PORT]);
    ValueStays(p, q, SERVER_PORT);
  }

  lemma ProbesReadBack(t: PodTemplate, p: Properties, q: Properties, j: nat)
    requires j < |t.containers| && KeepsValues(p, q) && Settled(ActuatorProbes, t, p, j) && Settled(Actuator, t, p, j)
    ensures Settled(ActuatorProbes, t, q, j)
  {
    ProbesBeforePort();
    BeforeIsNotLast(p, PROBES_ENABLED, MANAGEMENT_PORT);
    ValueStays(p, q, PROBES_ENABLED);
    if p[PROBES_ENABLED] == "true" {
      NumbersAreTrimmed(p[MANAGEMENT_PORT]);
      ValueStays(p, q, MANAGEMENT_PORT);
    }
  }

  /** The actuator's convention and that of its probes come together. */
  predicate ProbesComeWithActuator(cs: seq<Convention>) {
    ActuatorProbes in cs <==> Actuator in cs
  }

  lemma SettledForReadBack(cs: seq<Convention>, t: PodTemplate, p: Properties, q: Properties, j: nat, f: Facts)
    requires j < |t.containers| && ProbesComeWithActuator(cs) && KeepsValues(p, q) && AllSettled(cs, t, p, j, f)
    ensures AllSettled(cs, t, q, j, f)
  {
    forall k | 0 <= k < |cs| && IsApplicable(cs[k], f) ensures Settled(cs[k], t, q, j) {
      assert Settled(cs[k], t, p, j);
      match cs[k]
      case GracefulShutdown => GraceReadsBack(t, p, q, j);
      case Web => WebReadsBack(t, p, q, j);
      case ActuatorProbes =>
        var n :| 0 <= n < |cs| && cs[n] == Actuator;
        assert Settled(cs[n], t, p, j);
        ProbesReadBack(t, p, q, j);
      case _ =>
    }
  }

  lemma UriReadsBack(p: Properties, q: Properties)
    requires ReadsBack(p, q) && MANAGEMENT_PORT in p && MANAGEMENT_BASE_PATH in p
    ensures ManagementUri(q) == ManagementUri(TrimLast(p))
  {
    PortBeforeSsl();
    if MANAGEMENT_SSL in q && MANAGEMENT_SSL !in p {
      LessTransitive(MANAGEMENT_PORT, MANAGEMENT_SSL, MANAGEMENT_PORT);
      LessIrreflexive(MANAGEMENT_PORT);
    }
  }

  // ----- exactly when a run converges -----

  lemma SpringConventions()
    ensures AnnouncesOnce(SPRING_BOOT_CONVENTIONS) && ProbesComeWithActuator(SPRING_BOOT_CONVENTIONS)
  {
    var cs := SPRING_BOOT_CONVENTIONS;
    assert cs[3] == Actuator && cs[4] == ActuatorProbes;
    forall k | 0 <= k < |cs| && cs[k].ServiceIntent? ensures cs[k].labelName != ACTUATOR_URI {
      assert cs[k].labelName[0] == 's';
    }
  }

  /** The kept words of every container with metadata settle before the properties that a run prints. */
  predicate OptionsSettle(s: Server, t: PodTemplate) {
    forall j | 0 <= j < |t.containers| && t.containers[j].image in s.images ::
      SettlesBefore(OptionsOf(t.containers[j]).keep, PrintedKeys(s, t, j))
  }

  predicate IsLastAnnouncer(s: Server, t: PodTemplate, j: nat)
    requires j < |t.containers|
  {
    Announces(s, t, j) && forall k | j < k < |t.containers| :: !Announces(s, t, k)
  }

  /** What the user set says the same about the actuator's URI when the property that is printed
      last loses the white space at its end. */
  predicate AnnouncementSettles(keys: set<string>, user: Properties) {
    && (IsLastOf(keys, MANAGEMENT_PORT) && MANAGEMENT_PORT in user ==> NoSpaceAtEnd(user[MANAGEMENT_PORT]))
    && (IsLastOf(keys, MANAGEMENT_SSL) && TrimRight(Get(user, MANAGEMENT_SSL)) == "true" ==>
          Get(user, MANAGEMENT_SSL) == "true")
  }

  /** The announcement of the last container that has one settles. */
  predicate UriSettles(s: Server, t: PodTemplate) {
    forall j | 0 <= j < |t.containers| && IsLastAnnouncer(s, t, j) ::
      AnnouncementSettles(PrintedKeys(s, t, j), ReadOptions(t.containers[j]).1)
  }

  // ----- the announcement, from what is printed back to what the user set -----

  lemma {:induction false} UriOfNone(s: Server, t: PodTemplate, i: nat, ps: seq<Option<Properties>>)
    requires i <= |t.containers| && |ps| == |t.containers| - i
    requires forall k | i <= k < |t.containers| :: !Announces(s, t, k)
    ensures UriFrom(s, t, i, ps) == None
    decreases |ps|
  {
    if ps != [] {
      UriOfNone(s, t, i + 1, ps[1..]);
    }
  }

  lemma {:induction false} UriOfLast(s: Server, t: PodTemplate, i: nat, ps: seq<Option<Properties>>, j: nat)
    requires i <= j < |t.containers| && |ps| == |t.containers| - i
    requires IsLastAnnouncer(s, t, j) && ps[j - i].Some?
    ensures UriFrom(s, t, i, ps) == Some(ManagementUri(ps[j - i].value))
    decreases |ps|
  {
    if i < j {
      UriOfLast(s, t, i + 1, ps[1..], j);
    } else {
      UriOfNone(s, t, i + 1, ps[1..]);
    }
  }

  lemma {:induction false} LastAnnouncer(s: Server, t: PodTemplate, i: nat) returns (last: Option<nat>)
    requires i <= |t.containers|
    ensures last.Some? ==> i <= last.value < |t.containers| && IsLastAnnouncer(s, t, last.value)
    ensures last.None? ==> forall k | i <= k < |t.containers| :: !Announces(s, t, k)
    decreases |t.containers| - i
  {
    last := None;
    if i < |t.containers| {
      last := LastAnnouncer(s, t, i + 1);
      if last.None? && Announces(s, t, i) {
        last := Some(i);
      }
    }
  }

  lemma BasePathBeforeProbes()
    ensures Less(MANAGEMENT_BASE_PATH, PROBES_ENABLED)
  {
    LessAt(MANAGEMENT_BASE_PATH, PROBES_ENABLED, 11);
  }

  lemma ManagementBeforeServer()
    ensures Less(MANAGEMENT_PORT, SERVER_PORT)
  {
    LessAt(MANAGEMENT_PORT, SERVER_PORT, 0);
  }

  /** The URI depends on three properties; each difference in the port or the scheme shows. */
  lemma UriShowsPort(p: Properties, q: Properties)
    requires Get(q, MANAGEMENT_SSL) == Get(p, MANAGEMENT_SSL)
    requires Get(q, MANAGEMENT_BASE_PATH) == Get(p, MANAGEMENT_BASE_PATH)
    requires Get(q, MANAGEMENT_PORT) <= Get(p, MANAGEMENT_PORT)
    ensures ManagementUri(q) == ManagementUri(p) <==> Get(q, MANAGEMENT_PORT) == Get(p, MANAGEMENT_PORT)
  {
    if |Get(q, MANAGEMENT_PORT)| != |Get(p, MANAGEMENT_PORT)| {
      assert |ManagementUri(q)| < |ManagementUri(p)|;
    }
  }

  lemma UriShowsScheme(p: Properties, q: Properties)
    requires Get(q, MANAGEMENT_PORT) == Get(p, MANAGEMENT_PORT)
    requires Get(q, MANAGEMENT_BASE_PATH) == Get(p, MANAGEMENT_BASE_PATH)
    ensures ManagementUri(q) == ManagementUri(p)
            <==> (Get(q, MANAGEMENT_SSL) == "true" <==> Get(p, MANAGEMENT_SSL) == "true")
  {
    if !(Get(q, MANAGEMENT_SSL) == "true" <==> Get(p, MANAGEMENT_SSL) == "true") {
      assert |ManagementUri(q)| != |ManagementUri(p)|;
    }
  }

  lemma OnlyOneLast(p: Properties, key: string, last: string)
    requires key in p && last in p && IsLastKey(p, last) && key != last
    ensures TrimLast(p)[key] == p[key]
  {
    BeforeIsNotLast(p, key, last);
  }

  /** Whoever announces has a base path, a port, and the switch of the probes, which is printed
      behind the base path. */
  ghost predicate HasActuator(p: Properties) {
    MANAGEMENT_PORT in p && MANAGEMENT_BASE_PATH in p && PROBES_ENABLED in p
  }

  lemma LastIsPort(p: Properties, user: Properties)
    requires HasActuator(p) && IsLastKey(p, MANAGEMENT_PORT)
    requires PortIsTaken(user, p) && (MANAGEMENT_PORT in user ==> user[MANAGEMENT_PORT] == p[MANAGEMENT_PORT])
    ensures MANAGEMENT_SSL !in p
    ensures ManagementUri(TrimLast(p)) == ManagementUri(p)
            <==> (MANAGEMENT_PORT in user ==> NoSpaceAtEnd(user[MANAGEMENT_PORT]))
  {
    PortBeforeSsl();
    ManagementBeforeServer();
    if MANAGEMENT_SSL in p {
      BeforeIsNotLast(p, MANAGEMENT_PORT, MANAGEMENT_SSL);
    }
    if SERVER_PORT in p {
      BeforeIsNotLast(p, MANAGEMENT_PORT, SERVER_PORT);
    }
    DistinctKeys();
    OnlyOneLast(p, MANAGEMENT_BASE_PATH, MANAGEMENT_PORT);
    TrimRightAtEnd(p[MANAGEMENT_PORT]);
    TrimRightFacts(p[MANAGEMENT_PORT]);
    UriShowsPort(p, TrimLast(p));
  }

  lemma LastIsSsl(p: Properties)
    requires HasActuator(p) && MANAGEMENT_SSL in p && IsLastKey(p, MANAGEMENT_SSL)
    ensures !IsLastKey(p, MANAGEMENT_PORT)
    ensures ManagementUri(TrimLast(p)) == ManagementUri(p)
            <==> (TrimRight(p[MANAGEMENT_SSL]) == "true" ==> p[MANAGEMENT_SSL] == "true")
  {
    PortBeforeSsl();
    BeforeIsNotLast(p, MANAGEMENT_PORT, MANAGEMENT_SSL);
    assert MANAGEMENT_BASE_PATH != MANAGEMENT_SSL by {
      DistinctKeys();
    }
    OnlyOneLast(p, MANAGEMENT_BASE_PATH, MANAGEMENT_SSL);
    UriShowsScheme(p, TrimLast(p));
    TrueIsTrimmed();
  }

  lemma TrueIsTrimmed()
    ensures TrimRight("true") == "true"
  {
  }

  lemma LastIsAnother(p: Properties)
    requires HasActuator(p) && !IsLastKey(p, MANAGEMENT_PORT) && !(MANAGEMENT_SSL in p && IsLastKey(p, MANAGEMENT_SSL))
    ensures ManagementUri(TrimLast(p)) == ManagementUri(p)
  {
    BasePathBeforeProbes();
    BeforeIsNotLast(p, MANAGEMENT_BASE_PATH, PROBES_ENABLED);
  }

  /** So the printed properties settle as announced exactly when those of the user do. */
  lemma AnnouncementByKeys(p: Properties, user: Properties)
    requires HasActuator(p) && PortIsTaken(user, p) && Grows(user, p)
    requires MANAGEMENT_SSL in p ==> MANAGEMENT_SSL in user
    ensures ManagementUri(TrimLast(p)) == ManagementUri(p) <==> AnnouncementSettles(p.Keys, user)
  {
    DistinctKeys();
    assert IsLastOf(p.Keys, MANAGEMENT_PORT) <==> IsLastKey(p, MANAGEMENT_PORT);
    assert IsLastOf(p.Keys, MANAGEMENT_SSL) <==> MANAGEMENT_SSL in p && IsLastKey(p, MANAGEMENT_SSL);
    if IsLastKey(p, MANAGEMENT_PORT) {
      LastIsPort(p, user);
    } else if MANAGEMENT_SSL in p && IsLastKey(p, MANAGEMENT_SSL) {
      LastIsSsl(p);
    } else {
      LastIsAnother(p);
    }
  }

  function TrimEach(ps: seq<Option<Properties>>): (qs: seq<Option<Properties>>)
    ensures SamePlaces(ps, qs)
    ensures forall k | 0 <= k < |ps| && ps[k].Some? :: qs[k] == Some(TrimLast(ps[k].value))
  {
    seq(|ps|, k requires 0 <= k < |ps| => if ps[k].Some? then Some(TrimLast(ps[k].value)) else None)
  }

  /** What is remembered of a step whose options settle makes the container stable. */
  lemma RememberedIsStable(s: Server, t: PodTemplate, j: nat, p: Properties, final: PodTemplate)
    requires j < |t.containers| && SameIdentity(t, final) && HasMetadata(s, t, j)
    requires ProbesComeWithActuator(s.conventions)
    requires Remembers(s, t, j, p, final) && Settles(OptionsOf(t.containers[j]).keep, p)
    ensures Stable(s, final, j) && ReadsBack(p, ReadOptions(final.containers[j]).1)
  {
    var c, d := t.containers[j], final.containers[j];
    var q := ReadOptions(d).1;
    PrintedReads(c, p, d);
    SettledReadsBack(OptionsOf(c).keep, p);
    SettledForReadBack(s.conventions, final, p, q, j, FactsAt(s, t, j));
    assert FactsAt(s, final, j) == FactsAt(s, t, j);
  }

  lemma KeysArePrinted(s: Server, t: PodTemplate, o: RunOutcome, j: nat)
    requires RunsTo(s, t, o) && j < |t.containers| && HasMetadata(s, t, j)
    ensures o.properties[j].Some? && o.properties[j].value.Keys == PrintedKeys(s, t, j)
  {
    assert Remembers(s, t, j, o.properties[j].value, o.t);
  }

  lemma SettledIsStable(s: Server, t: PodTemplate, o: RunOutcome, j: nat)
    requires RunsTo(s, t, o) && j < |t.containers| && ProbesComeWithActuator(s.conventions)
    requires OptionsSettle(s, t)
    ensures Stable(s, o.t, j)
    ensures HasMetadata(s, t, j) ==>
      o.properties[j].Some? && ReadsBack(o.properties[j].value, ReadOptions(o.t.containers[j]).1)
  {
    if HasMetadata(s, t, j) {
      KeysArePrinted(s, t, o, j);
      RememberedIsStable(s, t, j, o.properties[j].value, o.t);
    }
  }

  lemma RememberedSettles(s: Server, t: PodTemplate, j: nat, p: Properties, final: PodTemplate, q: Properties,
                          again: PodTemplate)
    requires j < |t.containers| && HasMetadata(s, t, j) && SameIdentity(t, final) && SameIdentity(final, again)
    requires Remembers(s, t, j, p, final) && Remembers(s, final, j, q, again)
    requires again.containers[j] == final.containers[j]
    ensures Settles(OptionsOf(t.containers[j]).keep, p)
  {
    var c, d := t.containers[j], final.containers[j];
    assert FactsAt(s, final, j) == FactsAt(s, t, j);
    PrintedReads(c, p, d);
    RereadKeepsKeys(OptionsOf(c).keep, p);
    if !Settles(OptionsOf(c).keep, p) {
      assert q.Keys == ReadOptions(d).1.Keys;
      UnsettledIsRewritten(c, p, d, q, again.containers[j]);
    }
  }

  /** Options that do not settle are changed by a second run. */
  lemma ConvergedSettles(s: Server, t: PodTemplate, o: RunOutcome, again: RunOutcome)
    requires RunsTo(s, t, o) && RunsTo(s, o.t, again) && again.t == o.t
    ensures OptionsSettle(s, t)
  {
    forall j | 0 <= j < |t.containers| && HasMetadata(s, t, j)
      ensures SettlesBefore(OptionsOf(t.containers[j]).keep, PrintedKeys(s, t, j))
    {
      KeysArePrinted(s, t, o, j);
      RememberedSettles(s, t, j, o.properties[j].value, o.t, again.properties[j].value, again.t);
    }
  }

  lemma RereadKeepsKeys(keep: seq<string>, p: Properties)
    ensures p.Keys <= Reread(keep, p).properties.Keys
  {
  }

  /** Where an actuator is announced, the second properties say what the first do once trimmed. */
  predicate AnnouncedTrimmed(s: Server, t: PodTemplate, i: nat, p: Option<Properties>, q: Option<Properties>)
    requires i < |t.containers|
  {
    && (p.Some? <==> q.Some?)
    && (p.Some? && Announces(s, t, i) ==> ManagementUri(q.value) == ManagementUri(TrimLast(p.value)))
  }

  lemma {:induction false} UriOfReadBack(s: Server, t: PodTemplate, i: nat, ps: seq<Option<Properties>>,
                                         qs: seq<Option<Properties>>)
    requires i <= |t.containers| && |ps| == |qs| == |t.containers| - i
    requires forall k | 0 <= k < |ps| :: AnnouncedTrimmed(s, t, i + k, ps[k], qs[k])
    ensures UriFrom(s, t, i, qs) == UriFrom(s, t, i, TrimEach(ps))
    decreases |ps|
  {
    if ps != [] {
      assert TrimEach(ps)[1..] == TrimEach(ps[1..]);
      assert AnnouncedTrimmed(s, t, i + 0, ps[0], qs[0]);
      forall k | 0 <= k < |ps[1..]| ensures AnnouncedTrimmed(s, t, (i + 1) + k, ps[1..][k], qs[1..][k]) {
        assert AnnouncedTrimmed(s, t, i + (k + 1), ps[k + 1], qs[k + 1]);
      }
      UriOfReadBack(s, t, i + 1, ps[1..], qs[1..]);
    }
  }

  lemma SettledUriAt(s: Server, t: PodTemplate, o: RunOutcome, j: nat)
    requires RunsTo(s, t, o) && ProbesComeWithActuator(s.conventions) && OptionsSettle(s, t)
    requires j < |t.containers|
    ensures AnnouncedTrimmed(s, t, j, o.properties[j], ReadBack(s, o.t.containers[j]))
  {
    if HasMetadata(s, t, j) && Announces(s, t, j) {
      var p := o.properties[j].value;
      assert Remembers(s, t, j, p, o.t);
      SettledIsStable(s, t, o, j);
      ActuatorKeys(s.conventions, o.t, p, j, FactsAt(s, t, j));
      UriReadsBack(p, ReadOptions(o.t.containers[j]).1);
    }
  }

  /** Once all options settle, what is read back announces the trimmed values. */
  lemma SettledUri(s: Server, t: PodTemplate, o: RunOutcome)
    requires RunsTo(s, t, o) && ProbesComeWithActuator(s.conventions) && OptionsSettle(s, t)
    ensures SamePlaces(o.properties, ReadBacks(s, o.t.containers))
    ensures UriFrom(s, t, 0, ReadBacks(s, o.t.containers)) == UriFrom(s, t, 0, TrimEach(o.properties))
  {
    var qs := ReadBacks(s, o.t.containers);
    forall j | 0 <= j < |t.containers| ensures AnnouncedTrimmed(s, t, 0 + j, o.properties[j], qs[j]) {
      SettledUriAt(s, t, o, j);
    }
    UriOfReadBack(s, t, 0, o.properties, qs);
  }

  lemma SettledRerun(s: Server, t: PodTemplate, o: RunOutcome)
    requires RunsTo(s, t, o) && ProbesComeWithActuator(s.conventions) && OptionsSettle(s, t)
    ensures var again := RunFrom(s, o.t, 0);
      !again.failed && SameCore(o.t, again.t) && again.properties == ReadBacks(s, o.t.containers)
  {
    forall j | 0 <= j < |t.containers| ensures Stable(s, o.t, j) {
      SettledIsStable(s, t, o, j);
    }
    StableRun(s, o.t, 0);
    assert o.t.containers[0..] == o.t.containers;
  }

  lemma ActuatorKeys(cs: seq<Convention>, t: PodTemplate, p: Properties, j: nat, f: Facts)
    requires j < |t.containers| && AllSettled(cs, t, p, j, f) && Applies(cs, Actuator, f)
    ensures MANAGEMENT_PORT in p && MANAGEMENT_BASE_PATH in p
  {
    var n :| 0 <= n < |cs| && cs[n] == Actuator;
    assert Settled(cs[n], t, p, j);
  }

  /** A second run over the result of the first, with the same image metadata, succeeds, reports
      the same names and leaves the template as it is. */
  ghost predicate Converges(s: Server, t: PodTemplate) {
    var o := RunFrom(s, t, 0);
    var again := RunFrom(s, o.t, 0);
    !again.failed && again.t == o.t && again.applied == o.applied
  }

  /** Exactly when a successful run converges: the options of every container settle before the keys
      it prints, and the last announcement settles. */
  lemma RunConvergesExactly(images: seq<ImageConfig>, semver: (string, string) -> bool, t: PodTemplate)
    requires !Run(images, semver, t).failed
    ensures var s := SpringServer(images, semver); Converges(s, t) <==> OptionsSettle(s, t) && UriSettles(s, t)
  {
    var s := SpringServer(images, semver);
    SpringConventions();
    RunOutcomeFacts(s, t);
    ConvergesExactly(s, t);
    UriByKeys(s, t, RunFrom(s, t, 0));
  }

  /** Nothing that is announced last loses white space that was printed. */
  ghost predicate UriStays(s: Server, t: PodTemplate, ps: seq<Option<Properties>>) {
    |ps| == |t.containers| && UriFrom(s, t, 0, TrimEach(ps)) == UriFrom(s, t, 0, ps)
  }

  lemma AnnouncementAt(s: Server, t: PodTemplate, o: RunOutcome, j: nat)
    requires RunsTo(s, t, o) && ProbesComeWithActuator(s.conventions) && j < |t.containers| && Announces(s, t, j)
    ensures o.properties[j].Some?
    ensures var p := o.properties[j].value;
      ManagementUri(TrimLast(p)) == ManagementUri(p)
      <==> AnnouncementSettles(PrintedKeys(s, t, j), ReadOptions(t.containers[j]).1)
  {
    KeysArePrinted(s, t, o, j);
    assert Remembers(s, t, j, o.properties[j].value, o.t);
    DerivedAnnouncement(s, t.containers[j], o.properties[j].value, FactsAt(s, t, j));
  }

  lemma DerivedAnnouncement(s: Server, c: Container, p: Properties, f: Facts)
    requires Derived(s, c, p, f) && ProbesComeWithActuator(s.conventions) && Applies(s.conventions, Actuator, f)
    ensures ManagementUri(TrimLast(p)) == ManagementUri(p) <==> AnnouncementSettles(p.Keys, ReadOptions(c).1)
  {
    SuppliedIsIn(s.conventions, f, Actuator);
    SuppliedIsIn(s.conventions, f, ActuatorProbes);
    SslIsNotSupplied(s.conventions, f);
    AnnouncementByKeys(p, ReadOptions(c).1);
  }

  /** Of a list of printed properties only those of the last announcer matter. */
  lemma UriStaysAt(s: Server, t: PodTemplate, ps: seq<Option<Properties>>, j: nat)
    requires j < |t.containers| == |ps| && IsLastAnnouncer(s, t, j) && ps[j].Some?
    ensures UriStays(s, t, ps) <==> ManagementUri(TrimLast(ps[j].value)) == ManagementUri(ps[j].value)
  {
    UriOfLast(s, t, 0, ps, j);
    UriOfLast(s, t, 0, TrimEach(ps), j);
  }

  lemma UriByKeys(s: Server, t: PodTemplate, o: RunOutcome)
    requires RunsTo(s, t, o) && ProbesComeWithActuator(s.conventions)
    ensures UriStays(s, t, o.properties) <==> UriSettles(s, t)
  {
    var last := LastAnnouncer(s, t, 0);
    match last
    case None =>
      UriOfNone(s, t, 0, o.properties);
      UriOfNone(s, t, 0, TrimEach(o.properties));
    case Some(j) =>
      UriByKeysAt(s, t, o, j);
  }

  lemma UriByKeysAt(s: Server, t: PodTemplate, o: RunOutcome, j: nat)
    requires RunsTo(s, t, o) && ProbesComeWithActuator(s.conventions)
    requires j < |t.containers| && IsLastAnnouncer(s, t, j)
    ensures UriStays(s, t, o.properties) <==> UriSettles(s, t)
  {
    AnnouncementAt(s, t, o, j);
    UriStaysAt(s, t, o.properties, j);
    OneLastAnnouncer(s, t, j);
  }

  lemma OneLastAnnouncer(s: Server, t: PodTemplate, j: nat)
    requires j < |t.containers| && IsLastAnnouncer(s, t, j)
    ensures UriSettles(s, t) <==> AnnouncementSettles(PrintedKeys(s, t, j), ReadOptions(t.containers[j]).1)
  {
    assert forall k | 0 <= k < |t.containers| && IsLastAnnouncer(s, t, k) :: k == j;
  }

  lemma ConvergesExactly(s: Server, t: PodTemplate)
    requires AnnouncesOnce(s.conventions) && ProbesComeWithActuator(s.conventions)
    requires !RunFrom(s, t, 0).failed && RunsTo(s, t, RunFrom(s, t, 0))
    ensures Converges(s, t) <==> OptionsSettle(s, t) && UriStays(s, t, RunFrom(s, t, 0).properties)
  {
    var o := RunFrom(s, t, 0);
    var again := RunFrom(s, o.t, 0);
    if !again.failed && again.t == o.t {
      RunOutcomeFacts(s, o.t);
      ConvergedSettles(s, t, o, again);
    }
    if OptionsSettle(s, t) {
      SettledUri(s, t, o);
      SettledRerun(s, t, o);
      RerunReports(s, t);
      AnnotationsDecide(s, t, o.properties, again.properties);
      assert again.t == o.t <==> again.t.annotations == o.t.annotations;
    }
  }

  lemma AnnotationsDecide(s: Server, t: PodTemplate, ps: seq<Option<Properties>>, qs: seq<Option<Properties>>)
    requires |ps| == |t.containers| && SamePlaces(ps, qs) && AnnouncesOnce(s.conventions)
    ensures var a, b := AnnotationsFrom(s, t, 0, ps), AnnotationsFrom(s, t, 0, qs);
      (t.annotations + a) + b == t.annotations + a <==> UriFrom(s, t, 0, ps) == UriFrom(s, t, 0, qs)
  {
    AnnotationsOfRun(s, t, 0, ps, qs);
    AnnotationsOfRun(s, t, 0, qs, ps);
    MergeSameKeys(t.annotations, AnnotationsFrom(s, t, 0, ps), AnnotationsFrom(s, t, 0, qs), ACTUATOR_URI);
  }
}
