/** What a successful run of the Spring Boot convention server guarantees to the user. */
module SpringGuarantees {
  import opened Wrappers
  import opened Text
  import opened Core
  import opened Dependencies
  import opened SpringProperties
  import opened RoundTrips
  import opened SpringBoot
  import opened Convergence
  import opened SpringRuns

  // ----- ports -----

  predicate DistinctNames(t: PodTemplate) {
    forall i, j | 0 <= i < j < |t.containers| :: t.containers[i].name != t.containers[j].name
  }

  /** The web convention applied to container i. */
  predicate IsWeb(s: Server, t: PodTemplate, i: nat)
    requires i < |t.containers|
  {
    t.containers[i].image in s.images && Web in s.conventions && IsApplicable(Web, FactsAt(s, t, i))
  }

  function ServerPort(p: Properties): Option<int> {
    if SERVER_PORT !in p then None
    else match Atoi(p[SERVER_PORT])
      case None => None
      case Some(n) => Some(ToInt32(n))
  }

  /** With distinct names each web container is the first to declare its own server port. */
  lemma WebOwnsItsPort(s: Server, t: PodTemplate, i: nat)
    requires i < |t.containers| && DistinctNames(t) && IsWeb(s, t, i)
    requires !RunFrom(s, t, 0).failed
    ensures var o := RunFrom(s, t, 0);
      && o.properties[i].Some? && ServerPort(o.properties[i].value).Some?
      && FirstOwner(o.t.containers, ServerPort(o.properties[i].value).value) == Some(i)
  {
    var o := RunFrom(s, t, 0);
    RunOutcomeFacts(s, t);
    WebIsFirstOwner(s, t, i, o.properties[i].value, o.t);
  }

  lemma WebIsFirstOwner(s: Server, t: PodTemplate, i: nat, p: Properties, final: PodTemplate)
    requires i < |t.containers| && DistinctNames(t) && IsWeb(s, t, i) && SameIdentity(t, final)
    requires Remembers(s, t, i, p, final)
    ensures ServerPort(p).Some? && FirstOwner(final.containers, ServerPort(p).value) == Some(i)
  {
    assert WebSettled(final, p, i) by {
      WebIsSettled(s.conventions, final, p, i, FactsAt(s, t, i));
    }
    OwnerByName(t, final, ServerPort(p).value, i);
  }

  lemma WebIsSettled(cs: seq<Convention>, t: PodTemplate, p: Properties, i: nat, f: Facts)
    requires i < |t.containers| && AllSettled(cs, t, p, i, f) && Applies(cs, Web, f)
    ensures WebSettled(t, p, i)
  {
    var k :| 0 <= k < |cs| && cs[k] == Web;
    assert Settled(cs[k], t, p, i);
  }

  lemma OwnerByName(t: PodTemplate, final: PodTemplate, port: int, i: nat)
    requires i < |t.containers| && DistinctNames(t) && SameIdentity(t, final)
    requires var owner := FirstOwner(final.containers, port);
      owner.Some? && final.containers[owner.value].name == final.containers[i].name
    ensures FirstOwner(final.containers, port) == Some(i)
  {
    var owner := FirstOwner(final.containers, port).value;
    assert t.containers[owner].name == t.containers[i].name;
  }

  /** So no two web containers share a port, and no port declared before the run is gone. */
  lemma WebPortsAreDisjoint(s: Server, t: PodTemplate, i: nat, j: nat)
    requires i < j < |t.containers| && DistinctNames(t) && IsWeb(s, t, i) && IsWeb(s, t, j)
    requires !RunFrom(s, t, 0).failed
    ensures var o := RunFrom(s, t, 0);
      && o.properties[i].Some? && o.properties[j].Some?
      && ServerPort(o.properties[i].value) != ServerPort(o.properties[j].value)
      && t.containers[i].ports <= o.t.containers[i].ports
  {
    WebOwnsItsPort(s, t, i);
    WebOwnsItsPort(s, t, j);
    RunFrame(s, t, 0, i);
  }

  // ----- what the user configured -----

  function DerivedGrace(t: PodTemplate): string {
    Itoa(BootGrace(PodGrace(t))) + "s"
  }

  /** The user's value of a property is the one that is printed: no convention sets another. */
  predicate KeepsValue(s: Server, t: PodTemplate, i: nat, key: string, value: string)
    requires i < |t.containers| && t.containers[i].image in s.images
  {
    key == SHUTDOWN_GRACE && Applies(s.conventions, GracefulShutdown, FactsAt(s, t, i)) ==> value == DerivedGrace(t)
  }

  /** Exactly which -D properties of the user are printed with their last value: all but a shutdown
      grace period that graceful shutdown derives differently from the pod. */
  lemma UserPropertiesArePrinted(s: Server, t: PodTemplate, i: nat, key: string)
    requires i < |t.containers| && HasMetadata(s, t, i) && !RunFrom(s, t, 0).failed
    requires key in ReadOptions(t.containers[i]).1
    ensures var user, printed := ReadOptions(t.containers[i]).1, RunFrom(s, t, 0).properties[i];
      && printed.Some? && key in printed.value
      && (printed.value[key] == user[key] <==> KeepsValue(s, t, i, key, user[key]))
  {
    RunOutcomeFacts(s, t);
    RunFrame(s, t, 0, i);
    ValueIsPrinted(s, t, i, key, RunFrom(s, t, 0).properties[i].value, RunFrom(s, t, 0).t);
  }

  lemma ValueIsPrinted(s: Server, t: PodTemplate, i: nat, key: string, p: Properties, final: PodTemplate)
    requires i < |t.containers| == |final.containers| && HasMetadata(s, t, i)
    requires Remembers(s, t, i, p, final) && PodGrace(final) == PodGrace(t)
    requires key in ReadOptions(t.containers[i]).1
    ensures key in p && (p[key] == ReadOptions(t.containers[i]).1[key] <==>
                           KeepsValue(s, t, i, key, ReadOptions(t.containers[i]).1[key]))
    ensures p[key] != ReadOptions(t.containers[i]).1[key] ==> p[key] == DerivedGrace(t)
  {
    if key == SHUTDOWN_GRACE && Applies(s.conventions, GracefulShutdown, FactsAt(s, t, i)) {
      GraceIsDerived(s, t, i, p, final);
    }
  }

  lemma GraceIsDerived(s: Server, t: PodTemplate, i: nat, p: Properties, final: PodTemplate)
    requires i < |t.containers| == |final.containers| && HasMetadata(s, t, i)
    requires Remembers(s, t, i, p, final) && PodGrace(final) == PodGrace(t)
    requires Applies(s.conventions, GracefulShutdown, FactsAt(s, t, i))
    ensures final.terminationGracePeriodSeconds == Some(PodGrace(t))
    ensures SHUTDOWN_GRACE in p && p[SHUTDOWN_GRACE] == DerivedGrace(t)
  {
    var k :| 0 <= k < |s.conventions| && s.conventions[k] == GracefulShutdown;
    assert Settled(s.conventions[k], final, p, i);
  }

  /** The same of the properties that the final container is read with. Of all keys that are printed,
      only the last one's value can lose anything: the white space at its end. */
  lemma UserPropertiesSurvive(s: Server, t: PodTemplate, i: nat, key: string)
    requires i < |t.containers| && HasMetadata(s, t, i) && !RunFrom(s, t, 0).failed
    requires key in ReadOptions(t.containers[i]).1
    ensures var user, final := ReadOptions(t.containers[i]).1, ReadOptions(RunFrom(s, t, 0).t.containers[i]).1;
      && key in final
      && (final[key] == user[key] <==>
            && KeepsValue(s, t, i, key, user[key])
            && (IsLastOf(PrintedKeys(s, t, i), key) ==> NoSpaceAtEnd(user[key])))
  {
    var o := RunFrom(s, t, 0);
    RunOutcomeFacts(s, t);
    RunFrame(s, t, 0, i);
    ValueIsReadBack(s, t, i, key, o.properties[i].value, o.t);
  }

  lemma ValueIsReadBack(s: Server, t: PodTemplate, i: nat, key: string, p: Properties, final: PodTemplate)
    requires i < |t.containers| == |final.containers| && HasMetadata(s, t, i)
    requires Remembers(s, t, i, p, final) && PodGrace(final) == PodGrace(t)
    requires key in ReadOptions(t.containers[i]).1
    ensures var user, read := ReadOptions(t.containers[i]).1, ReadOptions(final.containers[i]).1;
      && key in read
      && (read[key] == user[key] <==>
            && KeepsValue(s, t, i, key, user[key])
            && (IsLastOf(PrintedKeys(s, t, i), key) ==> NoSpaceAtEnd(user[key])))
  {
    var read := ReadOptions(final.containers[i]).1;
    ValueIsPrinted(s, t, i, key, p, final);
    assert key in read && read[key] == TrimLast(p)[key] by {
      PrintedReads(t.containers[i], p, final.containers[i]);
      RereadValue(OptionsOf(t.containers[i]).keep, p, key);
    }
    LastByKeys(p, PrintedKeys(s, t, i), key);
    TrimRightAtEnd(p[key]);
    GraceEndsInLetter(t);
  }

  lemma LastByKeys(p: Properties, keys: set<string>, key: string)
    requires p.Keys == keys && key in p
    ensures IsLastOf(keys, key) <==> IsLastKey(p, key)
  {
  }

  lemma RereadValue(keep: seq<string>, p: Properties, key: string)
    requires key in p
    ensures key in Reread(keep, p).properties && Reread(keep, p).properties[key] == TrimLast(p)[key]
  {
  }

  lemma GraceEndsInLetter(t: PodTemplate)
    ensures NoSpaceAtEnd(DerivedGrace(t))
  {
  }

  /** A probe the user gave a handler is kept as it is, and so is a grace period. */
  lemma UserProbesSurvive(s: Server, t: PodTemplate, i: nat)
    requires i < |t.containers| && !RunFrom(s, t, 0).failed
    ensures var u := RunFrom(s, t, 0).t;
      && KeepsProbes(t.containers[i], u.containers[i])
      && (t.terminationGracePeriodSeconds.Some? ==> u.terminationGracePeriodSeconds == t.terminationGracePeriodSeconds)
  {
    RunFrame(s, t, 0, i);
  }

  /** Boot gets the largest whole number of seconds within 80% of the pod's grace period. */
  lemma BootGraceIsFourFifths(seconds: int)
    ensures 5 * BootGrace(seconds) <= 4 * seconds < 5 * BootGrace(seconds) + 5
  {
    var r := 0.8 * (seconds as real);
    assert 5.0 * r == (4 * seconds) as real;
    assert (BootGrace(seconds) as real) <= r < (BootGrace(seconds) as real) + 1.0;
  }

  /** The double nearest to 0.8. */
  const FLOAT_FOUR_FIFTHS := 3602879701896397.0 / 4503599627370496.0

  const TWO_TO_THE_53 := 9007199254740992

  /** What is used of rounding to the nearest double: it is monotone, keeps whole numbers up to
      2^53, and is off by at most one part in 2^53. */
  ghost predicate RoundsToDouble(round: real -> real) {
    && (forall x, y | x <= y :: round(x) <= round(y))
    && (forall x | 0.0 <= x <= TWO_TO_THE_53 as real && x.Floor as real == x :: round(x) == x)
    && (forall x | 0.5 <= x <= TWO_TO_THE_53 as real :: round(x) <= x + x / (TWO_TO_THE_53 as real))
  }

  /** So the code, which computes with doubles, finds the same boot period. */
  lemma FloatGraceAgrees(round: real -> real, seconds: nat)
    requires RoundsToDouble(round) && seconds < TWO_TO_THE_53 / 8
    ensures round(FLOAT_FOUR_FIFTHS * round(seconds as real)).Floor == BootGrace(seconds)
  {
    var b := BootGrace(seconds);
    var x := FLOAT_FOUR_FIFTHS * (seconds as real);
    BootGraceIsFourFifths(seconds);
    assert b as real <= x <= b as real + 0.85;
    assert round(b as real) == b as real && round(seconds as real) == seconds as real;
    if x >= 0.5 {
      assert x / (TWO_TO_THE_53 as real) <= 0.125;
    } else {
      assert seconds == 0 && round(0.0) == 0.0;
    }
  }

  /** Wherever graceful shutdown applies, the printed shutdown period is derived from the pod. */
  lemma ShutdownGraceIsDerived(s: Server, t: PodTemplate, i: nat)
    requires i < |t.containers| && HasMetadata(s, t, i) && !RunFrom(s, t, 0).failed
    requires Applies(s.conventions, GracefulShutdown, FactsAt(s, t, i))
    ensures var o := RunFrom(s, t, 0);
      && o.t.terminationGracePeriodSeconds == Some(PodGrace(t))
      && o.properties[i].Some? && SHUTDOWN_GRACE in o.properties[i].value
      && o.properties[i].value[SHUTDOWN_GRACE] == DerivedGrace(t)
  {
    RunOutcomeFacts(s, t);
    RunFrame(s, t, 0, i);
    GraceIsDerived(s, t, i, RunFrom(s, t, 0).properties[i].value, RunFrom(s, t, 0).t);
  }

  // ----- service intents -----

  /** An applicable service intent always labels the template with the container and annotates
      it with the first of its dependencies, in listed order, that the image has. */
  lemma ServiceIntentIsRecorded(id: string, labelName: string, dependencies: seq<string>,
                                t: PodTemplate, p: Properties, i: nat, f: Facts)
    requires i < |t.containers|
    ensures var c := ServiceIntent(id, labelName, dependencies);
      var u := ApplyConvention(c, t, p, i, f).t;
      if IsApplicable(c, f) then
        && labelName in u.labels && u.labels[labelName] == t.containers[i].name
        && labelName in u.annotations
        && exists k :: 0 <= k < |dependencies| && IsFirstPresent(f.deps, dependencies, k)
             && u.annotations[labelName] == dependencies[k] + "/" + Find(f.deps, dependencies[k]).value.version
      else u == t
  {
    LookupsAgree(f.deps, dependencies);
  }
}
