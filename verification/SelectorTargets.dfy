/** The documented selection of conventions by the labels of their selector target, and what the
    reconciler makes of it: resolved conventions do not carry the target. */
module SelectorTargets {
  import opened Wrappers
  import opened Sorting
  import opened Core
  import opened Selectors
  import opened ConventionTypes
  import opened Conventions
  import opened Admission
  import opened Reconciler

  // ----- what resolved conventions are selected by -----

  /** The source applies to everything, or one of its selectors asks for the presence of no label. */
  predicate LabelFree(s: Spec) {
    s.selectors == [] || exists k :: 0 <= k < |s.selectors| && Valid(s.selectors[k]) && AsksForNothing(s.selectors[k])
  }

  /** A resolved convention does not carry its selector target, so its selectors meet the empty
      label set: it is selected exactly when it is label-free, whatever the labels are. */
  lemma ResolvedMeetsNoLabels(cluster: Cluster, s: Source, c: Convention, intent: Intent)
    requires IsResolved(cluster, s, c)
    ensures Selected(c, CollectedLabels(intent)) <==> LabelFree(s.spec)
  {
    assert "" !in CollectedLabels(intent);
    assert TargetLabels(c, CollectedLabels(intent)) == map[];
    forall k | 0 <= k < |c.selectors| && Valid(c.selectors[k])
      ensures Select(c.selectors[k], map[]) == Some(true) <==> AsksForNothing(c.selectors[k])
    {
      MatchesNoLabels(c.selectors[k]);
    }
  }

  /** So the plan of a reconcile holds exactly the resolved conventions of label-free sources. */
  lemma PlanIsLabelFree(pre: Intent, cluster: Cluster, r: Report, post: Intent, i: nat)
    requires Step(pre, cluster, r, post) && r.plan.Some? && i < |cluster.sources.value|
    ensures r.resolved.Some? && |r.resolved.value| == |cluster.sources.value|
    ensures r.resolved.value[i] in r.plan.value <==> LabelFree(cluster.sources.value[i].spec)
  {
    var c, collected := r.resolved.value[i], CollectedLabels(pre);
    ResolvedMeetsNoLabels(cluster, cluster.sources.value[i], c, pre);
    SelectionMembers(r.resolved.value, collected, c);
    SameElements(Selection(r.resolved.value, collected), r.plan.value);
  }

  // ----- what the documentation promises -----

  /** Some selector matches the labels of the selector target. */
  predicate Promised(s: Spec, collected: map<string, Labels>) {
    Selected(Convention("", Defaulted(s).selectorTarget, s.selectors, "", NO_CLIENT), collected)
  }

  function TargetOf(s: Spec, intent: Intent): Labels {
    if Defaulted(s).selectorTarget == POD_INTENT_LABELS then intent.labels else intent.template.labels
  }

  lemma PromisedByTarget(s: Spec, checks: Checks, intent: Intent)
    requires Acceptable(Defaulted(s), checks)
    ensures Promised(s, CollectedLabels(intent)) <==>
            s.selectors == [] || exists k :: 0 <= k < |s.selectors| && Matches(s.selectors[k], TargetOf(s, intent))
  {
    var documented := Convention("", Defaulted(s).selectorTarget, s.selectors, "", NO_CLIENT);
    assert |POD_INTENT_LABELS| != |POD_TEMPLATE_SPEC_LABELS|;
    assert TargetLabels(documented, CollectedLabels(intent)) == TargetOf(s, intent);
    assert forall k | 0 <= k < |s.selectors| ::
        Select(s.selectors[k], TargetOf(s, intent)) == Some(Matches(s.selectors[k], TargetOf(s, intent)));
  }

  /** For one intent the documented selection is met exactly when the source is label-free just in
      case one of its selectors matches the labels of its target. */
  lemma PromiseIsKept(cluster: Cluster, s: Source, c: Convention, checks: Checks, intent: Intent)
    requires IsResolved(cluster, s, c) && Acceptable(Defaulted(s.spec), checks)
    ensures var matching :=
        exists k :: 0 <= k < |s.spec.selectors| && Matches(s.spec.selectors[k], TargetOf(s.spec, intent));
      (Selected(c, CollectedLabels(intent)) <==> Promised(s.spec, CollectedLabels(intent)))
      <==> (LabelFree(s.spec) <==> s.spec.selectors == [] || matching)
  {
    ResolvedMeetsNoLabels(cluster, s, c, intent);
    PromisedByTarget(s.spec, checks, intent);
  }

  // ----- sources for which the promise is kept whatever the labels -----

  /** An intent that has these labels on itself and on its template. */
  function IntentWith(labels: Labels): Intent {
    Intent("", "", labels, PodTemplate(labels, map[], None, [], []), "", [], None, None, None)
  }

  ghost predicate KeptAlways(s: Spec, c: Convention) {
    forall intent: Intent :: Selected(c, CollectedLabels(intent)) <==> Promised(s, CollectedLabels(intent))
  }

  function ValuesOf(s: LabelSelector): set<string> {
    s.matchLabels.Values + set i, v | 0 <= i < |s.matchExpressions| && v in s.matchExpressions[i].values :: v
  }

  function KeysOf(s: LabelSelector): set<string> {
    s.matchLabels.Keys + set i | 0 <= i < |s.matchExpressions| :: s.matchExpressions[i].key
  }

  /** The keys and the values that the selectors of a source mention. */
  function MentionedKeys(s: Spec): set<string> {
    set i, k | 0 <= i < |s.selectors| && k in KeysOf(s.selectors[i]) :: k
  }

  function MentionedValues(s: Spec): set<string> {
    set i, v | 0 <= i < |s.selectors| && v in ValuesOf(s.selectors[i]) :: v
  }

  lemma LongerThanAll(values: set<string>) returns (v: string)
    ensures forall u | u in values :: |u| < |v|
  {
    if values == {} {
      v := "x";
    } else {
      var u :| u in values;
      v := LongerThanAll(values - {u});
      if |v| <= |u| {
        v := u + "x";
      }
    }
  }

  lemma FreshExists(values: set<string>)
    ensures exists v :: v !in values
  {
    var v := LongerThanAll(values);
    assert v !in values;
  }

  /** A value that none of the selectors mentions. */
  ghost function FreshValue(values: set<string>): (v: string)
    ensures v !in values
  {
    FreshExists(values);
    var v :| v !in values;
    v
  }

  ghost function AnyKey(keys: set<string>): (k: string)
    requires keys != {}
    ensures k in keys
  {
    var k :| k in keys;
    k
  }

  /** All labels with these keys at most and these values only: finitely many. */
  ghost function LabelsOver(keys: set<string>, values: set<string>): set<Labels> {
    if keys == {} then {map[]}
    else
      var k := AnyKey(keys);
      var fewer := LabelsOver(keys - {k}, values);
      fewer + set labels, v | labels in fewer && v in values :: labels[k := v]
  }

  lemma {:induction false} LabelsOverAll(keys: set<string>, values: set<string>, labels: Labels)
    requires labels.Keys <= keys && forall k | k in labels :: labels[k] in values
    ensures labels in LabelsOver(keys, values)
    decreases keys
  {
    if keys == {} {
      assert labels == map[];
    } else {
      var k := AnyKey(keys);
      var fewer := labels - {k};
      LabelsOverAll(keys - {k}, values, fewer);
      if k in labels {
        assert labels == fewer[k := labels[k]];
      } else {
        assert labels == fewer;
      }
    }
  }

  /** The labels that are enough to look at: mentioned keys, with a mentioned value or another one. */
  ghost function Representatives(s: Spec): set<Labels> {
    LabelsOver(MentionedKeys(s), MentionedValues(s) + {FreshValue(MentionedValues(s))})
  }

  /** The labels as selectors with these keys and values see them. */
  function Seen(labels: Labels, keys: set<string>, values: set<string>, other: string): Labels {
    map k | k in labels && k in keys :: if labels[k] in values then labels[k] else other
  }

  lemma SeenIsEnough(s: LabelSelector, labels: Labels, keys: set<string>, values: set<string>, other: string)
    requires Valid(s) && KeysOf(s) <= keys && ValuesOf(s) <= values && other !in values
    ensures Matches(s, labels) <==> Matches(s, Seen(labels, keys, values, other))
  {
    var seen := Seen(labels, keys, values, other);
    forall k | k in s.matchLabels
      ensures (k in labels && labels[k] == s.matchLabels[k]) <==> (k in seen && seen[k] == s.matchLabels[k])
    {
      assert k in KeysOf(s) && s.matchLabels[k] in ValuesOf(s);
    }
    forall i | 0 <= i < |s.matchExpressions|
      ensures Meets(s.matchExpressions[i], labels) <==> Meets(s.matchExpressions[i], seen)
    {
      var r := s.matchExpressions[i];
      assert r.key in KeysOf(s);
      assert forall v | v in r.values :: v in ValuesOf(s);
    }
  }

  /** The source has no selectors, or one of them matches. */
  predicate MatchesSome(s: Spec, labels: Labels)
    requires forall k | 0 <= k < |s.selectors| :: Valid(s.selectors[k])
  {
    s.selectors == [] || exists k :: 0 <= k < |s.selectors| && Matches(s.selectors[k], labels)
  }

  /** Any labels are matched as some representative is. */
  lemma RepresentedBy(s: Spec, labels: Labels) returns (seen: Labels)
    requires forall k | 0 <= k < |s.selectors| :: Valid(s.selectors[k])
    ensures seen in Representatives(s) && (MatchesSome(s, labels) <==> MatchesSome(s, seen))
  {
    var keys, values := MentionedKeys(s), MentionedValues(s);
    var other := FreshValue(values);
    seen := Seen(labels, keys, values, other);
    LabelsOverAll(keys, values + {other}, seen);
    forall k | 0 <= k < |s.selectors| ensures Matches(s.selectors[k], labels) <==> Matches(s.selectors[k], seen) {
      SeenIsEnough(s.selectors[k], labels, keys, values, other);
    }
  }

  /** Exactly which admitted sources get the documented selection on every intent: those that are
      label-free and matched by every representative, and those that are neither by any. It is a
      finite check of the source. */
  lemma PromiseIsAlwaysKept(cluster: Cluster, s: Source, c: Convention, checks: Checks)
    requires IsResolved(cluster, s, c) && Acceptable(Defaulted(s.spec), checks)
    ensures KeptAlways(s.spec, c) <==>
            forall labels | labels in Representatives(s.spec) :: LabelFree(s.spec) <==> MatchesSome(s.spec, labels)
  {
    if forall labels | labels in Representatives(s.spec) :: LabelFree(s.spec) <==> MatchesSome(s.spec, labels) {
      forall intent: Intent
        ensures Selected(c, CollectedLabels(intent)) <==> Promised(s.spec, CollectedLabels(intent))
      {
        KeptByMatch(cluster, s, c, checks, intent);
        var seen := RepresentedBy(s.spec, TargetOf(s.spec, intent));
      }
    } else {
      var labels :| labels in Representatives(s.spec) && !(LabelFree(s.spec) <==> MatchesSome(s.spec, labels));
      var intent := IntentWith(labels);
      KeptByMatch(cluster, s, c, checks, intent);
      assert !(Selected(c, CollectedLabels(intent)) <==> Promised(s.spec, CollectedLabels(intent)));
    }
  }

  lemma KeptByMatch(cluster: Cluster, s: Source, c: Convention, checks: Checks, intent: Intent)
    requires IsResolved(cluster, s, c) && Acceptable(Defaulted(s.spec), checks)
    ensures Selected(c, CollectedLabels(intent)) <==> LabelFree(s.spec)
    ensures Promised(s.spec, CollectedLabels(intent)) <==> MatchesSome(s.spec, TargetOf(s.spec, intent))
  {
    ResolvedMeetsNoLabels(cluster, s, c, intent);
    PromisedByTarget(s.spec, checks, intent);
  }

  // ----- sources that only ask for the presence of labels -----

  /** A selector that only asks for the presence of labels, if it asks for anything. */
  predicate Positive(s: LabelSelector) {
    forall i | 0 <= i < |s.matchExpressions| ::
      s.matchExpressions[i].operator == "In" || s.matchExpressions[i].operator == "Exists"
  }

  predicate IsListFor(r: Requirement, key: string) {
    r.key == key && r.operator == "In"
  }

  /** No part of the selector forbids this value of the label. */
  predicate Allows(s: LabelSelector, key: string, value: string) {
    && (key in s.matchLabels ==> s.matchLabels[key] == value)
    && forall i | 0 <= i < |s.matchExpressions| && IsListFor(s.matchExpressions[i], key) ::
         value in s.matchExpressions[i].values
  }

  /** Each list of values leaves one that the rest of the selector allows. */
  predicate Consistent(s: LabelSelector) {
    forall i | 0 <= i < |s.matchExpressions| && s.matchExpressions[i].operator == "In" ::
      exists v | v in s.matchExpressions[i].values :: Allows(s, s.matchExpressions[i].key, v)
  }

  ghost function SampleValue(s: LabelSelector, key: string): (v: string)
    ensures (exists u :: Allows(s, key, u)) ==> Allows(s, key, v)
  {
    if exists u :: Allows(s, key, u) then
      var u :| Allows(s, key, u);
      u
    else ""
  }

  /** Labels that a consistent selector matches. */
  ghost function SampleLabels(s: LabelSelector): Labels {
    map k | k in KeysOf(s) :: if k in s.matchLabels then s.matchLabels[k] else SampleValue(s, k)
  }

  lemma SampleMatches(s: LabelSelector)
    requires Valid(s) && Positive(s) && Consistent(s)
    ensures Matches(s, SampleLabels(s))
  {
    var labels := SampleLabels(s);
    forall i | 0 <= i < |s.matchExpressions| ensures Meets(s.matchExpressions[i], labels) {
      var r := s.matchExpressions[i];
      assert r.key in KeysOf(s);
      if r.operator == "In" {
        var v :| v in r.values && Allows(s, r.key, v);
        assert Allows(s, r.key, SampleValue(s, r.key));
      }
    }
  }

  lemma MatchedIsConsistent(s: LabelSelector, labels: Labels)
    requires Valid(s) && Matches(s, labels)
    ensures Consistent(s)
  {
    forall i | 0 <= i < |s.matchExpressions| && s.matchExpressions[i].operator == "In"
      ensures exists v | v in s.matchExpressions[i].values :: Allows(s, s.matchExpressions[i].key, v)
    {
      var r := s.matchExpressions[i];
      assert Meets(r, labels);
      forall j | 0 <= j < |s.matchExpressions| && IsListFor(s.matchExpressions[j], r.key)
        ensures labels[r.key] in s.matchExpressions[j].values
      {
        assert Meets(s.matchExpressions[j], labels);
      }
      assert Allows(s, r.key, labels[r.key]);
    }
  }

  /** A selector that may only ask for presence, and asks for none, matches everything. */
  lemma PositiveNothing(s: LabelSelector, labels: Labels)
    requires Valid(s) && Positive(s) && AsksForNothing(s)
    ensures Matches(s, labels)
  {
  }

  /** Exactly which admitted sources with presence selectors get the documented selection on every
      intent: those that are label-free, and those of which no selector can match at all. */
  lemma PresenceIsAlwaysKept(cluster: Cluster, s: Source, c: Convention, checks: Checks)
    requires IsResolved(cluster, s, c) && Acceptable(Defaulted(s.spec), checks)
    requires forall k | 0 <= k < |s.spec.selectors| :: Positive(s.spec.selectors[k])
    ensures KeptAlways(s.spec, c) <==>
            LabelFree(s.spec) || forall k | 0 <= k < |s.spec.selectors| :: !Consistent(s.spec.selectors[k])
  {
    if LabelFree(s.spec) || forall k | 0 <= k < |s.spec.selectors| :: !Consistent(s.spec.selectors[k]) {
      forall intent: Intent
        ensures Selected(c, CollectedLabels(intent)) <==> Promised(s.spec, CollectedLabels(intent))
      {
        ResolvedMeetsNoLabels(cluster, s, c, intent);
        PromisedByTarget(s.spec, checks, intent);
        PresenceDecides(s.spec, checks, TargetOf(s.spec, intent));
      }
    } else {
      var k :| 0 <= k < |s.spec.selectors| && Consistent(s.spec.selectors[k]);
      var intent := IntentWith(SampleLabels(s.spec.selectors[k]));
      ResolvedMeetsNoLabels(cluster, s, c, intent);
      PromisedByTarget(s.spec, checks, intent);
      SampleMatches(s.spec.selectors[k]);
      assert !(Selected(c, CollectedLabels(intent)) <==> Promised(s.spec, CollectedLabels(intent)));
    }
  }

  lemma PresenceDecides(s: Spec, checks: Checks, labels: Labels)
    requires Acceptable(Defaulted(s), checks)
    requires forall k | 0 <= k < |s.selectors| :: Positive(s.selectors[k])
    ensures LabelFree(s) ==> s.selectors == [] || exists k :: 0 <= k < |s.selectors| && Matches(s.selectors[k], labels)
    ensures forall k | 0 <= k < |s.selectors| && Matches(s.selectors[k], labels) :: Consistent(s.selectors[k])
  {
    if LabelFree(s) && s.selectors != [] {
      var k :| 0 <= k < |s.selectors| && Valid(s.selectors[k]) && AsksForNothing(s.selectors[k]);
      PositiveNothing(s.selectors[k], labels);
    }
    forall k | 0 <= k < |s.selectors| && Matches(s.selectors[k], labels) ensures Consistent(s.selectors[k]) {
      MatchedIsConsistent(s.selectors[k], labels);
    }
  }

  // ----- admitted sources for which it is not -----

  function WebhookAt(url: string): Webhook {
    Webhook(ClientConfig(Some(url), None, []), None)
  }

  function SourceWith(selector: LabelSelector, url: string): Source {
    Source("web", Spec([selector], "", "", Some(WebhookAt(url))))
  }

  function ResolvedFrom(s: Source, url: string): Convention {
    Convention(s.name, "", s.spec.selectors, NORMAL, WebhookAt(url).clientConfig)
  }

  lemma SampleIsAdmitted(cluster: Cluster, selector: LabelSelector, url: string, checks: Checks)
    requires Valid(selector) && checks.url(url) == []
    ensures var s := SourceWith(selector, url);
      Acceptable(Defaulted(s.spec), checks) && IsResolved(cluster, s, ResolvedFrom(s, url))
  {
  }

  /** A source that selects the label app=web, and a template that has it: the documentation
      promises the convention, and the reconciler drops it. */
  lemma PromiseIsDropped(cluster: Cluster, url: string, checks: Checks, intent: Intent)
    requires checks.url(url) == [] && intent.template.labels == map["app" := "web"]
    ensures var s := SourceWith(LabelSelector(map["app" := "web"], [], true), url);
      && Acceptable(Defaulted(s.spec), checks) && IsResolved(cluster, s, ResolvedFrom(s, url))
      && Promised(s.spec, CollectedLabels(intent)) && !Selected(ResolvedFrom(s, url), CollectedLabels(intent))
  {
    var selector := LabelSelector(map["app" := "web"], [], true);
    var s := SourceWith(selector, url);
    SampleIsAdmitted(cluster, selector, url, checks);
    ResolvedMeetsNoLabels(cluster, s, ResolvedFrom(s, url), intent);
    PromisedByTarget(s.spec, checks, intent);
    assert "app" in selector.matchLabels;
    assert |POD_INTENT_LABELS| != |POD_TEMPLATE_SPEC_LABELS|;
    assert Matches(s.spec.selectors[0], intent.template.labels);
  }

  /** A source that excludes the label app=web, and a template that has it: the documentation rules
      the convention out, and the reconciler applies it. */
  lemma ExclusionIsIgnored(cluster: Cluster, url: string, checks: Checks, intent: Intent)
    requires checks.url(url) == [] && intent.template.labels == map["app" := "web"]
    ensures var s := SourceWith(LabelSelector(map[], [Requirement("app", "NotIn", ["web"])], true), url);
      && Acceptable(Defaulted(s.spec), checks) && IsResolved(cluster, s, ResolvedFrom(s, url))
      && !Promised(s.spec, CollectedLabels(intent)) && Selected(ResolvedFrom(s, url), CollectedLabels(intent))
  {
    var selector := LabelSelector(map[], [Requirement("app", "NotIn", ["web"])], true);
    var s := SourceWith(selector, url);
    assert |"NotIn"| == 5 && |"In"| == 2 && |"Exists"| == 6;
    assert Valid(selector);
    SampleIsAdmitted(cluster, selector, url, checks);
    ResolvedMeetsNoLabels(cluster, s, ResolvedFrom(s, url), intent);
    PromisedByTarget(s.spec, checks, intent);
    assert |POD_INTENT_LABELS| != |POD_TEMPLATE_SPEC_LABELS|;
    assert AsksForNothing(s.spec.selectors[0]);
    assert !Meets(selector.matchExpressions[0], intent.template.labels);
  }
}
