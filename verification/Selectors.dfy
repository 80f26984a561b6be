/** Label selectors of Kubernetes: which ones are valid, and what they match. */
module Selectors {
  import opened Wrappers

  datatype Requirement = Requirement(key: string, operator: string, values: seq<string>)

  /** `legalText` stands for the character rules of label keys and values. */
  datatype LabelSelector = LabelSelector(
    matchLabels: map<string, string>,
    matchExpressions: seq<Requirement>,
    legalText: bool)

  type Labels = map<string, string>

  const EVERYTHING := LabelSelector(map[], [], true)

  predicate ValidRequirement(r: Requirement) {
    if r.operator == "In" || r.operator == "NotIn" then r.values != []
    else (r.operator == "Exists" || r.operator == "DoesNotExist") && r.values == []
  }

  predicate Valid(s: LabelSelector) {
    s.legalText && forall i | 0 <= i < |s.matchExpressions| :: ValidRequirement(s.matchExpressions[i])
  }

  predicate Meets(r: Requirement, labels: Labels)
    requires ValidRequirement(r)
  {
    if r.operator == "In" then r.key in labels && labels[r.key] in r.values
    else if r.operator == "NotIn" then r.key !in labels || labels[r.key] !in r.values
    else if r.operator == "Exists" then r.key in labels
    else r.key !in labels
  }

  predicate Matches(s: LabelSelector, labels: Labels)
    requires Valid(s)
  {
    && (forall k | k in s.matchLabels :: k in labels && labels[k] == s.matchLabels[k])
    && (forall i | 0 <= i < |s.matchExpressions| :: Meets(s.matchExpressions[i], labels))
  }

  /** In and NotIn ask for values, Exists and DoesNotExist for none, and there are no other operators. */
  lemma OperatorsNeedValues(r: Requirement)
    ensures r.operator in ["In", "NotIn"] ==> (ValidRequirement(r) <==> |r.values| > 0)
    ensures r.operator in ["Exists", "DoesNotExist"] ==> (ValidRequirement(r) <==> |r.values| == 0)
    ensures r.operator !in ["In", "NotIn", "Exists", "DoesNotExist"] ==> !ValidRequirement(r)
  {
    assert |"In"| == 2 && |"NotIn"| == 5 && |"Exists"| == 6 && |"DoesNotExist"| == 12;
  }

  /** What the operators mean: two of them, and their opposites. */
  lemma OperatorsMean(key: string, values: seq<string>, labels: Labels)
    requires values != []
    ensures Meets(Requirement(key, "In", values), labels) <==> exists v :: v in values && (key, v) in labels.Items
    ensures Meets(Requirement(key, "Exists", []), labels) <==> exists v :: (key, v) in labels.Items
    ensures Meets(Requirement(key, "NotIn", values), labels) <==> !Meets(Requirement(key, "In", values), labels)
    ensures Meets(Requirement(key, "DoesNotExist", []), labels) <==> !Meets(Requirement(key, "Exists", []), labels)
  {
    assert |"In"| == 2 && |"NotIn"| == 5 && |"Exists"| == 6 && |"DoesNotExist"| == 12;
    if key in labels {
      assert (key, labels[key]) in labels.Items;
    }
  }

  /** The empty selector matches everything; a further requirement is one more condition, and a further
      label is the requirement that its key has this one value. */
  lemma RequirementsAdd(s: LabelSelector, r: Requirement, key: string, value: string, labels: Labels)
    requires Valid(s) && ValidRequirement(r) && key !in s.matchLabels
    ensures Matches(EVERYTHING, labels)
    ensures var more := s.(matchExpressions := s.matchExpressions + [r]);
      Valid(more) && (Matches(more, labels) <==> Matches(s, labels) && Meets(r, labels))
    ensures Matches(s.(matchLabels := s.matchLabels[key := value]), labels)
        <==> Matches(s, labels) && Meets(Requirement(key, "In", [value]), labels)
  {
    RequirementAdds(s, r, labels);
    LabelAdds(s, key, value, labels);
  }

  lemma RequirementAdds(s: LabelSelector, r: Requirement, labels: Labels)
    requires Valid(s) && ValidRequirement(r)
    ensures var more := s.(matchExpressions := s.matchExpressions + [r]);
      Valid(more) && (Matches(more, labels) <==> Matches(s, labels) && Meets(r, labels))
  {
    var more := s.(matchExpressions := s.matchExpressions + [r]);
    var n := |s.matchExpressions|;
    assert more.matchExpressions[n] == r;
    assert forall i | 0 <= i < n :: more.matchExpressions[i] == s.matchExpressions[i];
  }

  lemma LabelAdds(s: LabelSelector, key: string, value: string, labels: Labels)
    requires Valid(s) && key !in s.matchLabels
    ensures Matches(s.(matchLabels := s.matchLabels[key := value]), labels)
        <==> Matches(s, labels) && Meets(Requirement(key, "In", [value]), labels)
  {
    var more := s.(matchLabels := s.matchLabels[key := value]);
    assert key in more.matchLabels && forall k | k in s.matchLabels :: k in more.matchLabels;
  }

  /** LabelSelectorAsSelector followed by Matches; an invalid selector is an error. */
  function Select(s: LabelSelector, labels: Labels): Option<bool> {
    if Valid(s) then Some(Matches(s, labels)) else None
  }

  /** It is an error exactly for a text that is not legal or a requirement that is not valid. */
  lemma SelectMeans(s: LabelSelector, labels: Labels)
    ensures Select(s, labels).None? <==>
              !s.legalText || exists i :: 0 <= i < |s.matchExpressions| && !ValidRequirement(s.matchExpressions[i])
    ensures Select(s, labels).Some? ==> Select(s, labels).value == Matches(s, labels)
  {
  }

  /** The selector asks for the presence of no label. */
  predicate AsksForNothing(s: LabelSelector) {
    s.matchLabels == map[]
    && forall i | 0 <= i < |s.matchExpressions| ::
         s.matchExpressions[i].operator == "NotIn" || s.matchExpressions[i].operator == "DoesNotExist"
  }

  /** Against the empty label set exactly the selectors that ask for nothing match. */
  lemma MatchesNoLabels(s: LabelSelector)
    requires Valid(s)
    ensures Matches(s, map[]) <==> AsksForNothing(s)
  {
    if Matches(s, map[]) {
      forall i | 0 <= i < |s.matchExpressions|
        ensures s.matchExpressions[i].operator == "NotIn" || s.matchExpressions[i].operator == "DoesNotExist"
      {
        assert Meets(s.matchExpressions[i], map[]);
      }
      assert s.matchLabels.Keys == {};
    }
  }
}
