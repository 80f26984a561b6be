/** The metrics ConfigMap: counters over the PodIntents and the names of the conventions. */
module Metrics {
  import opened Wrappers
  import opened Text
  import opened Sorting
  import opened ConventionTypes

  datatype OwnerReference = OwnerReference(apiVersion: string, kind: string, controller: bool)

  /** A PodIntent as the metrics see it: its owners and the status of its Ready condition. */
  datatype Subject = Subject(owners: seq<OwnerReference>, ready: Option<Status>)

  const READY_PREFIX := "podintents_ready_"
  const OWNER_PREFIX := "podintents_owner_"
  const COUNT_SUFFIX := "_count"
  const COUNT_KEY := "podintents_count"
  const NAMES_KEY := "clusterpodconventions_names"

  /** The meaning of a key of the data. */
  datatype MetricKey = ReadyOf(status: string) | OwnerOf(groupKind: string) | CountOf | NamesOf

  function KeyText(k: MetricKey): string {
    match k
    case ReadyOf(status) => READY_PREFIX + status + COUNT_SUFFIX
    case OwnerOf(groupKind) => OWNER_PREFIX + groupKind + COUNT_SUFFIX
    case CountOf => COUNT_KEY
    case NamesOf => NAMES_KEY
  }

  // ----- what is counted -----

  /** metav1.GetControllerOf. */
  function ControllerOf(owners: seq<OwnerReference>): Option<OwnerReference> {
    if owners == [] then None
    else if owners[0].controller then Some(owners[0])
    else ControllerOf(owners[1..])
  }

  /** The text of the group and kind of an API version and a kind. */
  function GroupKind(o: OwnerReference): string {
    var parts := Split(o.apiVersion, '/');
    var group := if |parts| == 2 then parts[0] else "";
    if group == "" then o.kind else o.kind + "." + group
  }

  function StatusText(s: Subject): string {
    match s.ready
    case Some(True) => "true"
    case Some(False) => "false"
    case _ => "unknown"
  }

  function OwnerText(s: Subject): Option<string> {
    var owner := ControllerOf(s.owners);
    if owner.Some? then Some(GroupKind(owner.value)) else None
  }

  function StatusTexts(subjects: seq<Subject>): (r: seq<string>)
    ensures |r| == |subjects|
  {
    if subjects == [] then []
    else StatusTexts(subjects[..|subjects| - 1]) + [StatusText(subjects[|subjects| - 1])]
  }

  function OwnerTexts(subjects: seq<Subject>): seq<string> {
    if subjects == [] then []
    else
      var owner := OwnerText(subjects[|subjects| - 1]);
      OwnerTexts(subjects[..|subjects| - 1]) + if owner.Some? then [owner.value] else []
  }

  function CountOwned(subjects: seq<Subject>): nat {
    if subjects == [] then 0
    else CountOwned(subjects[..|subjects| - 1]) + if ControllerOf(subjects[|subjects| - 1].owners).Some? then 1 else 0
  }

  type Counter = map<string, nat>

  function Bump(c: Counter, key: string): Counter {
    c[key := (if key in c then c[key] else 0) + 1]
  }

  ghost predicate IsCounter(c: Counter, texts: seq<string>) {
    && (forall k :: k in c <==> k in texts)
    && (forall k | k in c :: c[k] == multiset(texts)[k])
  }

  /** The keys for a set of statuses and a set of owners. */
  function KeysFor(statuses: set<string>, owners: set<string>): set<MetricKey> {
    {CountOf, NamesOf} + (set s | s in statuses :: ReadyOf(s)) + (set o | o in owners :: OwnerOf(o))
  }

  function SetOf(texts: seq<string>): set<string> {
    set t | t in texts
  }

  function ValueOf(k: MetricKey, statuses: multiset<string>, owners: multiset<string>, total: nat,
                   sorted: seq<string>): string {
    match k
    case ReadyOf(s) => Itoa(statuses[s])
    case OwnerOf(o) => Itoa(owners[o])
    case CountOf => Itoa(total)
    case NamesOf => Join(sorted, '\n')
  }

  /** What the ConfigMap says: one counter for each status and each owner that occurs, the number
      of intents, and the names of the conventions. */
  function Contents(subjects: seq<Subject>, sorted: seq<string>): map<MetricKey, string> {
    ContentsOf(StatusTexts(subjects), OwnerTexts(subjects), |subjects|, sorted)
  }

  function ContentsOf(statuses: seq<string>, owners: seq<string>, total: nat, sorted: seq<string>): map<MetricKey,
                      string> {
    map k | k in KeysFor(SetOf(statuses), SetOf(owners)) ::
      ValueOf(k, multiset(statuses), multiset(owners), total, sorted)
  }

  ghost predicate Injective(text: MetricKey -> string) {
    forall a, b | text(a) == text(b) :: a == b
  }

  /** The data hold the contents under the texts of their keys, and nothing else. */
  ghost predicate IsRendering(text: MetricKey -> string, m: map<MetricKey, string>, data: map<string, string>) {
    && (forall k | k in m :: text(k) in data && data[text(k)] == m[k])
    && (forall key | key in data :: exists k :: k in m && text(k) == key)
  }

  /** The data of the ConfigMap for the given intents and names. */
  ghost predicate IsData(subjects: seq<Subject>, names: seq<string>, data: map<string, string>) {
    exists sorted :: SortedCopy(Less, names, sorted) && IsRendering(KeyText, Contents(subjects, sorted), data)
  }

  // ----- the key families -----

  lemma SameAffixes(prefix: string, a: string, b: string, suffix: string)
    requires prefix + a + suffix == prefix + b + suffix
    ensures a == b
  {
    assert |a| == |b|;
    forall i | 0 <= i < |a| ensures a[i] == b[i] {
      assert (prefix + a + suffix)[|prefix| + i] == (prefix + b + suffix)[|prefix| + i];
    }
  }

  /** The first and the twelfth character tell the families apart. */
  lemma KeyMarks(k: MetricKey)
    ensures |KeyText(k)| >= 12
    ensures KeyText(k)[0] == if k.NamesOf? then 'c' else 'p'
    ensures !k.NamesOf? ==> KeyText(k)[11] == if k.ReadyOf? then 'r' else if k.OwnerOf? then 'o' else 'c'
  {
  }

  lemma TextIsInjective(a: MetricKey, b: MetricKey)
    requires KeyText(a) == KeyText(b)
    ensures a == b
  {
    KeyMarks(a);
    KeyMarks(b);
    if a.ReadyOf? {
      SameAffixes(READY_PREFIX, a.status, b.status, COUNT_SUFFIX);
    } else if a.OwnerOf? {
      SameAffixes(OWNER_PREFIX, a.groupKind, b.groupKind, COUNT_SUFFIX);
    }
  }

  /** Ready keys, owner keys and the two fixed keys never collide, nor do two of one family. */
  lemma FamiliesNeverCollide()
    ensures Injective(KeyText)
  {
    forall a, b | KeyText(a) == KeyText(b) ensures a == b {
      TextIsInjective(a, b);
    }
  }

  lemma RenderAdd(text: MetricKey -> string, m: map<MetricKey, string>, data: map<string, string>, k: MetricKey,
                  value: string)
    requires Injective(text) && IsRendering(text, m, data)
    ensures IsRendering(text, m[k := value], data[text(k) := value])
  {
    var data' := data[text(k) := value];
    forall key | key in data' ensures exists j :: j in m[k := value] && text(j) == key {
      if key == text(k) {
        assert k in m[k := value];
      } else {
        var j :| j in m && text(j) == key;
        assert j in m[k := value];
      }
    }
  }

  lemma RenderingIsUnique(text: MetricKey -> string, m: map<MetricKey, string>, a: map<string, string>,
                          b: map<string, string>)
    requires IsRendering(text, m, a) && IsRendering(text, m, b)
    ensures a == b
  {
    forall key ensures key in a <==> key in b {
    }
    forall key | key in a ensures a[key] == b[key] {
      var k :| k in m && text(k) == key;
    }
  }

  // ----- conservation -----

  /** The number a key of the data stands for; an absent counter is zero. */
  function CounterAt(data: map<string, string>, key: string): int {
    if key !in data then 0
    else match Atoi(data[key])
      case None => -1
      case Some(n) => n
  }

  function SumOf(text: MetricKey -> string, data: map<string, string>, keys: seq<MetricKey>): int {
    if keys == [] then 0 else CounterAt(data, text(keys[0])) + SumOf(text, data, keys[1..])
  }

  function Occurrences(texts: seq<string>, list: seq<string>): nat {
    if list == [] then 0 else multiset(texts)[list[0]] + Occurrences(texts, list[1..])
  }

  predicate Distinct(list: seq<string>) {
    forall i, j | 0 <= i < j < |list| :: list[i] != list[j]
  }

  /** Counting over a list without repetition that covers all texts counts every text once. */
  lemma {:induction false} OccurrencesAddUp(texts: seq<string>, list: seq<string>)
    requires Distinct(list) && forall t | t in texts :: t in list
    ensures Occurrences(texts, list) == |texts|
  {
    if texts == [] {
      NoOccurrences(texts, list);
    } else {
      var n := |texts| - 1;
      assert texts == texts[..n] + [texts[n]];
      OccurrencesAddUp(texts[..n], list);
      OneMore(texts[..n], texts[n], list);
    }
  }

  lemma {:induction false} NoOccurrences(texts: seq<string>, list: seq<string>)
    requires texts == []
    ensures Occurrences(texts, list) == 0
  {
    if list != [] {
      NoOccurrences(texts, list[1..]);
    }
  }

  lemma {:induction false} OneMore(texts: seq<string>, text: string, list: seq<string>)
    requires Distinct(list)
    ensures Occurrences(texts + [text], list) == Occurrences(texts, list) + if text in list then 1 else 0
  {
    if list != [] {
      OneMore(texts, text, list[1..]);
      assert list == [list[0]] + list[1..];
    }
  }

  function ReadyKeys(statuses: seq<string>): seq<MetricKey> {
    if statuses == [] then [] else [ReadyOf(statuses[0])] + ReadyKeys(statuses[1..])
  }

  function OwnerKeys(owners: seq<string>): seq<MetricKey> {
    if owners == [] then [] else [OwnerOf(owners[0])] + OwnerKeys(owners[1..])
  }

  lemma CounterReads(text: MetricKey -> string, m: map<MetricKey, string>, data: map<string, string>, k: MetricKey,
                     n: nat)
    requires Injective(text) && IsRendering(text, m, data) && n < INT64_LIMIT
    requires k in m ==> m[k] == Itoa(n)
    ensures CounterAt(data, text(k)) == if k in m then n else 0
  {
    AtoiItoa(n);
  }

  lemma {:induction false} ReadySum(text: MetricKey -> string, subjects: seq<Subject>, sorted: seq<string>,
                                    data: map<string, string>, list: seq<string>)
    requires Injective(text) && IsRendering(text, Contents(subjects, sorted), data) && |subjects| < INT64_LIMIT
    ensures SumOf(text, data, ReadyKeys(list)) == Occurrences(StatusTexts(subjects), list)
  {
    if list != [] {
      var texts := StatusTexts(subjects);
      ReadySum(text, subjects, sorted, data, list[1..]);
      assert ReadyKeys(list)[1..] == ReadyKeys(list[1..]);
      CountIsBounded(texts, list[0]);
      CounterReads(text, Contents(subjects, sorted), data, ReadyOf(list[0]), multiset(texts)[list[0]]);
    }
  }

  lemma {:induction false} OwnerSum(text: MetricKey -> string, subjects: seq<Subject>, sorted: seq<string>,
                                    data: map<string, string>, list: seq<string>)
    requires Injective(text) && IsRendering(text, Contents(subjects, sorted), data) && |subjects| < INT64_LIMIT
    ensures SumOf(text, data, OwnerKeys(list)) == Occurrences(OwnerTexts(subjects), list)
  {
    if list != [] {
      var texts := OwnerTexts(subjects);
      OwnerSum(text, subjects, sorted, data, list[1..]);
      assert OwnerKeys(list)[1..] == OwnerKeys(list[1..]);
      CountIsBounded(texts, list[0]);
      OwnersAreCounted(subjects);
      CounterReads(text, Contents(subjects, sorted), data, OwnerOf(list[0]), multiset(texts)[list[0]]);
    }
  }

  lemma {:induction false} CountIsBounded(texts: seq<string>, text: string)
    ensures multiset(texts)[text] <= |texts|
  {
    if texts != [] {
      var n := |texts| - 1;
      assert texts == texts[..n] + [texts[n]];
      CountIsBounded(texts[..n], text);
    }
  }

  lemma {:induction false} OwnersAreCounted(subjects: seq<Subject>)
    ensures |OwnerTexts(subjects)| == CountOwned(subjects) <= |subjects|
  {
    if subjects != [] {
      OwnersAreCounted(subjects[..|subjects| - 1]);
    }
  }

  /** Every intent is counted once: the ready counters add up to the number of intents, and the
      owner counters, one for each group and kind, to the number of intents with a controller. */
  lemma CountersAreConserved(subjects: seq<Subject>, names: seq<string>, data: map<string, string>)
    requires IsData(subjects, names, data) && |subjects| < INT64_LIMIT
    ensures SumOf(KeyText, data, ReadyKeys(["true", "false", "unknown"])) == |subjects|
         == CounterAt(data, KeyText(CountOf))
    ensures SumOf(KeyText, data, OwnerKeys(SortedKeys(SetOf(OwnerTexts(subjects))))) == CountOwned(subjects)
  {
    var sorted :| SortedCopy(Less, names, sorted) && IsRendering(KeyText, Contents(subjects, sorted), data);
    FamiliesNeverCollide();
    RenderedStatuses(KeyText, subjects, sorted, data);
    RenderedOwners(KeyText, subjects, sorted, data);
  }

  lemma RenderedStatuses(text: MetricKey -> string, subjects: seq<Subject>, sorted: seq<string>,
                         data: map<string, string>)
    requires Injective(text) && IsRendering(text, Contents(subjects, sorted), data) && |subjects| < INT64_LIMIT
    ensures SumOf(text, data, ReadyKeys(["true", "false", "unknown"])) == |subjects| == CounterAt(data, text(CountOf))
  {
    var statuses := ["true", "false", "unknown"];
    StatusesAreKnown(subjects);
    assert |"true"| == 4 && |"false"| == 5 && |"unknown"| == 7;
    OccurrencesAddUp(StatusTexts(subjects), statuses);
    ReadySum(text, subjects, sorted, data, statuses);
    CounterReads(text, Contents(subjects, sorted), data, CountOf, |subjects|);
  }

  lemma RenderedOwners(text: MetricKey -> string, subjects: seq<Subject>, sorted: seq<string>,
                       data: map<string, string>)
    requires Injective(text) && IsRendering(text, Contents(subjects, sorted), data) && |subjects| < INT64_LIMIT
    ensures SumOf(text, data, OwnerKeys(SortedKeys(SetOf(OwnerTexts(subjects))))) == CountOwned(subjects)
  {
    var owners := SortedKeys(SetOf(OwnerTexts(subjects)));
    forall i, j | 0 <= i < j < |owners| ensures owners[i] != owners[j] {
      LessIrreflexive(owners[i]);
    }
    OccurrencesAddUp(OwnerTexts(subjects), owners);
    OwnerSum(text, subjects, sorted, data, owners);
    OwnersAreCounted(subjects);
  }

  lemma {:induction false} StatusesAreKnown(subjects: seq<Subject>)
    ensures forall s | s in StatusTexts(subjects) :: s in ["true", "false", "unknown"]
  {
    if subjects != [] {
      StatusesAreKnown(subjects[..|subjects| - 1]);
    }
  }

  // ----- what the data say, key by key -----

  /** The positions at which a condition holds. */
  function Positions(subjects: seq<Subject>, p: Subject -> bool): set<nat> {
    set i: nat | i < |subjects| && p(subjects[i])
  }

  lemma PositionsNext(subjects: seq<Subject>, p: Subject -> bool)
    requires subjects != []
    ensures var n := |subjects| - 1;
      |Positions(subjects, p)| == |Positions(subjects[..n], p)| + if p(subjects[n]) then 1 else 0
  {
    var n := |subjects| - 1;
    assert Positions(subjects, p) == Positions(subjects[..n], p) + if p(subjects[n]) then {n} else {};
  }

  lemma {:induction false} OwnerPositions(subjects: seq<Subject>, text: string, p: Subject -> bool)
    requires forall s :: p(s) <==> OwnerText(s) == Some(text)
    ensures multiset(OwnerTexts(subjects))[text] == |Positions(subjects, p)|
  {
    if subjects != [] {
      OwnerPositions(subjects[..|subjects| - 1], text, p);
      PositionsNext(subjects, p);
    }
  }

  /** A status is the Ready condition in words: "unknown" also stands for a missing one. */
  lemma StatusTextMeans(s: Subject)
    ensures StatusText(s) == "true" <==> s.ready == Some(True)
    ensures StatusText(s) == "false" <==> s.ready == Some(False)
    ensures StatusText(s) == "unknown" <==> s.ready != Some(True) && s.ready != Some(False)
  {
    assert |"true"| == 4 && |"false"| == 5 && |"unknown"| == 7;
  }

  lemma {:induction false} StatusTextsAt(subjects: seq<Subject>)
    ensures forall i | 0 <= i < |subjects| :: StatusTexts(subjects)[i] == StatusText(subjects[i])
  {
    if subjects != [] {
      StatusTextsAt(subjects[..|subjects| - 1]);
    }
  }

  lemma {:induction false} PositionsOf(texts: seq<string>, text: string)
    ensures multiset(texts)[text] == |set i | 0 <= i < |texts| && texts[i] == text|
  {
    if texts != [] {
      var n := |texts| - 1;
      assert texts == texts[..n] + [texts[n]];
      PositionsOf(texts[..n], text);
      assert (set i | 0 <= i < |texts| && texts[i] == text)
          == (set i | 0 <= i < |texts[..n]| && texts[..n][i] == text) + if texts[n] == text then {n} else {};
    }
  }

  lemma StatusCount(subjects: seq<Subject>, texts: seq<string>, text: string, status: Status)
    requires |texts| == |subjects|
    requires forall i | 0 <= i < |texts| :: texts[i] == text <==> subjects[i].ready == Some(status)
    ensures multiset(texts)[text] == |set i | 0 <= i < |subjects| && subjects[i].ready == Some(status)|
  {
    PositionsOf(texts, text);
    assert (set i | 0 <= i < |texts| && texts[i] == text)
        == set i | 0 <= i < |subjects| && subjects[i].ready == Some(status);
  }

  lemma OpenCount(subjects: seq<Subject>, texts: seq<string>, text: string)
    requires |texts| == |subjects|
    requires forall i | 0 <= i < |texts| ::
               texts[i] == text <==> subjects[i].ready != Some(True) && subjects[i].ready != Some(False)
    ensures multiset(texts)[text]
         == |set i | 0 <= i < |subjects| && subjects[i].ready != Some(True) && subjects[i].ready != Some(False)|
  {
    PositionsOf(texts, text);
    assert (set i | 0 <= i < |texts| && texts[i] == text)
        == set i | 0 <= i < |subjects| && subjects[i].ready != Some(True) && subjects[i].ready != Some(False);
  }

  /** So the texts count the intents by their Ready condition. */
  lemma StatusesCount(subjects: seq<Subject>)
    ensures multiset(StatusTexts(subjects))["true"] == |set i | 0 <= i < |subjects| && subjects[i].ready == Some(True)|
    ensures multiset(StatusTexts(subjects))["false"]
         == |set i | 0 <= i < |subjects| && subjects[i].ready == Some(False)|
    ensures multiset(StatusTexts(subjects))["unknown"]
         == |set i | 0 <= i < |subjects| && subjects[i].ready != Some(True) && subjects[i].ready != Some(False)|
  {
    var texts := StatusTexts(subjects);
    StatusTextsAt(subjects);
    forall i | 0 <= i < |subjects|
      ensures texts[i] == "true" <==> subjects[i].ready == Some(True)
      ensures texts[i] == "false" <==> subjects[i].ready == Some(False)
      ensures texts[i] == "unknown" <==> subjects[i].ready != Some(True) && subjects[i].ready != Some(False)
    {
      StatusTextMeans(subjects[i]);
    }
    StatusCount(subjects, texts, "true", True);
    StatusCount(subjects, texts, "false", False);
    OpenCount(subjects, texts, "unknown");
  }

  /** The intent's controller, the first owner that is marked as one, has that group and kind. */
  predicate OwnedBy(s: Subject, groupKind: string) {
    exists k :: 0 <= k < |s.owners| && FirstController(s.owners, k) && GroupKind(s.owners[k]) == groupKind
  }

  predicate FirstController(owners: seq<OwnerReference>, k: nat)
    requires k < |owners|
  {
    owners[k].controller && forall j | 0 <= j < k :: !owners[j].controller
  }

  lemma {:induction false} ControllerIsFirst(owners: seq<OwnerReference>, k: nat)
    requires k < |owners| && FirstController(owners, k)
    ensures ControllerOf(owners) == Some(owners[k])
  {
    if k > 0 {
      assert FirstController(owners[1..], k - 1);
      ControllerIsFirst(owners[1..], k - 1);
    }
  }

  lemma {:induction false} ControllerExists(owners: seq<OwnerReference>) returns (k: nat)
    requires ControllerOf(owners).Some?
    ensures k < |owners| && FirstController(owners, k)
  {
    if owners[0].controller {
      k := 0;
    } else {
      var rest := ControllerExists(owners[1..]);
      k := rest + 1;
    }
  }

  lemma OwnerMeans(s: Subject, text: string)
    ensures OwnerText(s) == Some(text) <==> OwnedBy(s, text)
  {
    if OwnerText(s) == Some(text) {
      var k := ControllerExists(s.owners);
      ControllerIsFirst(s.owners, k);
    }
    if k :| 0 <= k < |s.owners| && FirstController(s.owners, k) && GroupKind(s.owners[k]) == text {
      ControllerIsFirst(s.owners, k);
    }
  }

  /** The kind, and behind it the group of an API version "group/version"; without exactly one slash,
      or with nothing before it, there is no group. */
  lemma GroupKindMeans(o: OwnerReference, group: string, version: string)
    requires '/' !in group && '/' !in version
    ensures o.apiVersion == version ==> GroupKind(o) == o.kind
    ensures o.apiVersion == group + "/" + version ==>
      GroupKind(o) == if group == "" then o.kind else o.kind + "." + group
    ensures forall more | o.apiVersion == group + "/" + version + "/" + more :: GroupKind(o) == o.kind
  {
    SplitFree(version, '/');
    SplitCons(group, version, '/');
    forall more | o.apiVersion == group + "/" + version + "/" + more ensures GroupKind(o) == o.kind {
      assert o.apiVersion == group + ['/'] + (version + ['/'] + more);
      SplitCons(group, version + ['/'] + more, '/');
      SplitCons(version, more, '/');
    }
  }

  /** An owner's text counts the intents whose controller has that group and kind. */
  lemma OwnersCount(subjects: seq<Subject>, text: string)
    ensures multiset(OwnerTexts(subjects))[text] == |set i | 0 <= i < |subjects| && OwnedBy(subjects[i], text)|
  {
    var owned: Subject -> bool := s => OwnedBy(s, text);
    forall s ensures owned(s) <==> OwnerText(s) == Some(text) {
      OwnerMeans(s, text);
    }
    OwnerPositions(subjects, text, owned);
    assert Positions(subjects, owned) == set i | 0 <= i < |subjects| && OwnedBy(subjects[i], text);
  }

  /** The key is present exactly when there is something to count, and holds the number in decimal. */
  predicate CountedAt(data: map<string, string>, key: string, n: nat) {
    (key in data <==> n > 0) && (key in data ==> data[key] == Itoa(n))
  }

  lemma RenderedCounter(subjects: seq<Subject>, sorted: seq<string>, data: map<string, string>, k: MetricKey)
    requires IsRendering(KeyText, Contents(subjects, sorted), data) && (k.ReadyOf? || k.OwnerOf?)
    ensures CountedAt(data, KeyText(k), if k.ReadyOf? then multiset(StatusTexts(subjects))[k.status]
                                        else multiset(OwnerTexts(subjects))[k.groupKind])
  {
    FamiliesNeverCollide();
    ContentsAt(StatusTexts(subjects), OwnerTexts(subjects), |subjects|, sorted, k);
  }

  lemma ReadyTexts()
    ensures KeyText(ReadyOf("true")) == "podintents_ready_true_count"
    ensures KeyText(ReadyOf("false")) == "podintents_ready_false_count"
    ensures KeyText(ReadyOf("unknown")) == "podintents_ready_unknown_count"
  {
  }

  /** The three counters of the Ready conditions. */
  lemma ReadyCounters(subjects: seq<Subject>, names: seq<string>, data: map<string, string>)
    requires IsData(subjects, names, data)
    ensures CountedAt(data, "podintents_ready_true_count",
                      |set i | 0 <= i < |subjects| && subjects[i].ready == Some(True)|)
    ensures CountedAt(data, "podintents_ready_false_count",
                      |set i | 0 <= i < |subjects| && subjects[i].ready == Some(False)|)
    ensures CountedAt(data, "podintents_ready_unknown_count",
                      |set i | 0 <= i < |subjects| && subjects[i].ready != Some(True)
                                                   && subjects[i].ready != Some(False)|)
  {
    var sorted :| SortedCopy(Less, names, sorted) && IsRendering(KeyText, Contents(subjects, sorted), data);
    StatusesCount(subjects);
    ReadyTexts();
    RenderedCounter(subjects, sorted, data, ReadyOf("true"));
    RenderedCounter(subjects, sorted, data, ReadyOf("false"));
    RenderedCounter(subjects, sorted, data, ReadyOf("unknown"));
  }

  /** The counter of one group and kind of controllers. */
  lemma OwnerCounter(subjects: seq<Subject>, names: seq<string>, data: map<string, string>, groupKind: string)
    requires IsData(subjects, names, data)
    ensures CountedAt(data, "podintents_owner_" + groupKind + "_count",
                      |set i | 0 <= i < |subjects| && OwnedBy(subjects[i], groupKind)|)
  {
    var sorted :| SortedCopy(Less, names, sorted) && IsRendering(KeyText, Contents(subjects, sorted), data);
    OwnersCount(subjects, groupKind);
    RenderedCounter(subjects, sorted, data, OwnerOf(groupKind));
  }

  /** The two fixed keys: the number of intents, and the names in the order of strings. */
  lemma FixedKeys(subjects: seq<Subject>, names: seq<string>, data: map<string, string>) returns (sorted: seq<string>)
    requires IsData(subjects, names, data)
    ensures "podintents_count" in data && data["podintents_count"] == Itoa(|subjects|)
    ensures "clusterpodconventions_names" in data && data["clusterpodconventions_names"] == Join(sorted, '\n')
    ensures multiset(sorted) == multiset(names)
    ensures forall i, j | 0 <= i < j < |sorted| :: sorted[i] == sorted[j] || Precedes(sorted[i], sorted[j])
  {
    sorted :| SortedCopy(Less, names, sorted) && IsRendering(KeyText, Contents(subjects, sorted), data);
    SortedByPrecedes(names, sorted);
    FixedTexts();
    RenderedFixed(subjects, sorted, data, CountOf, "podintents_count");
    RenderedFixed(subjects, sorted, data, NamesOf, "clusterpodconventions_names");
  }

  lemma FixedTexts()
    ensures KeyText(CountOf) == "podintents_count" && KeyText(NamesOf) == "clusterpodconventions_names"
  {
  }

  lemma RenderedFixed(subjects: seq<Subject>, sorted: seq<string>, data: map<string, string>, k: MetricKey, key: string)
    requires IsRendering(KeyText, Contents(subjects, sorted), data) && (k.CountOf? || k.NamesOf?) && KeyText(k) == key
    ensures key in data && data[key] == if k.CountOf? then Itoa(|subjects|) else Join(sorted, '\n')
  {
    RenderedKey(KeyText, subjects, sorted, data, k);
  }

  lemma RenderedKey(text: MetricKey -> string, subjects: seq<Subject>, sorted: seq<string>, data: map<string, string>,
                    k: MetricKey)
    requires IsRendering(text, Contents(subjects, sorted), data) && (k.CountOf? || k.NamesOf?)
    ensures text(k) in data && data[text(k)] == if k.CountOf? then Itoa(|subjects|) else Join(sorted, '\n')
  {
    ContentsAt(StatusTexts(subjects), OwnerTexts(subjects), |subjects|, sorted, k);
  }

  lemma KeyOfData(text: MetricKey -> string, subjects: seq<Subject>, sorted: seq<string>, data: map<string, string>,
                  key: string)
    returns (k: MetricKey)
    requires IsRendering(text, Contents(subjects, sorted), data) && key in data
    ensures text(k) == key && (k.ReadyOf? ==> k.status in ["true", "false", "unknown"])
  {
    k :| k in Contents(subjects, sorted) && text(k) == key;
    ContentsAt(StatusTexts(subjects), OwnerTexts(subjects), |subjects|, sorted, k);
    StatusesAreKnown(subjects);
  }

  /** There are no keys besides those and the counters. */
  lemma NoOtherKeys(subjects: seq<Subject>, names: seq<string>, data: map<string, string>, key: string)
    requires IsData(subjects, names, data) && key in data
    ensures key in ["podintents_count", "clusterpodconventions_names", "podintents_ready_true_count",
                    "podintents_ready_false_count", "podintents_ready_unknown_count"]
         || exists groupKind: string :: key == "podintents_owner_" + groupKind + "_count"
  {
    var sorted :| SortedCopy(Less, names, sorted) && IsRendering(KeyText, Contents(subjects, sorted), data);
    var k := KeyOfData(KeyText, subjects, sorted, data, key);
    KeyTextIsKnown(k);
  }

  lemma KeyTextIsKnown(k: MetricKey)
    requires k.ReadyOf? ==> k.status in ["true", "false", "unknown"]
    ensures KeyText(k) in ["podintents_count", "clusterpodconventions_names", "podintents_ready_true_count",
                           "podintents_ready_false_count", "podintents_ready_unknown_count"]
         || exists groupKind: string :: KeyText(k) == "podintents_owner_" + groupKind + "_count"
  {
    ReadyTexts();
    if k.OwnerOf? {
      assert KeyText(k) == "podintents_owner_" + k.groupKind + "_count";
    }
  }

  lemma SortedByPrecedes(names: seq<string>, sorted: seq<string>)
    requires SortedCopy(Less, names, sorted)
    ensures multiset(sorted) == multiset(names)
    ensures forall i, j | 0 <= i < j < |sorted| :: sorted[i] == sorted[j] || Precedes(sorted[i], sorted[j])
  {
    LessIsTotal(names);
    forall i, j | 0 <= i < j < |sorted| ensures sorted[i] == sorted[j] || Precedes(sorted[i], sorted[j]) {
      if sorted[i] != sorted[j] {
        LessTotal(sorted[i], sorted[j]);
        LessIsPrecedes(sorted[i], sorted[j]);
      }
    }
  }

  // ----- order independence -----

  lemma {:induction false} StatusTextsConcat(a: seq<Subject>, b: seq<Subject>)
    ensures StatusTexts(a + b) == StatusTexts(a) + StatusTexts(b)
  {
    if b == [] {
      assert a + b == a;
    } else {
      var n := |b| - 1;
      assert (a + b)[..|a + b| - 1] == a + b[..n];
      StatusTextsConcat(a, b[..n]);
    }
  }

  lemma {:induction false} OwnerTextsConcat(a: seq<Subject>, b: seq<Subject>)
    ensures OwnerTexts(a + b) == OwnerTexts(a) + OwnerTexts(b)
  {
    if b == [] {
      assert a + b == a;
    } else {
      var n := |b| - 1;
      assert (a + b)[..|a + b| - 1] == a + b[..n];
      OwnerTextsConcat(a, b[..n]);
    }
  }

  lemma TextsConcat(a: seq<Subject>, b: seq<Subject>)
    ensures StatusTexts(a + b) == StatusTexts(a) + StatusTexts(b)
    ensures OwnerTexts(a + b) == OwnerTexts(a) + OwnerTexts(b)
  {
    StatusTextsConcat(a, b);
    OwnerTextsConcat(a, b);
  }

  lemma Around(b: seq<Subject>, k: nat)
    requires k < |b|
    ensures var rest := b[..k] + b[k + 1..];
      && multiset(StatusTexts(b)) == multiset(StatusTexts(rest)) + multiset(StatusTexts([b[k]]))
      && multiset(OwnerTexts(b)) == multiset(OwnerTexts(rest)) + multiset(OwnerTexts([b[k]]))
  {
    assert b == (b[..k] + [b[k]]) + b[k + 1..];
    TextsConcat(b[..k] + [b[k]], b[k + 1..]);
    TextsConcat(b[..k], [b[k]]);
    TextsConcat(b[..k], b[k + 1..]);
  }

  lemma {:induction false} TextsPermute(a: seq<Subject>, b: seq<Subject>)
    requires multiset(a) == multiset(b)
    ensures multiset(StatusTexts(a)) == multiset(StatusTexts(b))
    ensures multiset(OwnerTexts(a)) == multiset(OwnerTexts(b))
  {
    SameElements(a, b);
    if a != [] {
      var n := |a| - 1;
      assert a[n] in b;
      var k :| 0 <= k < |b| && b[k] == a[n];
      WithoutOne(a, n);
      WithoutOne(b, k);
      assert a[..n] + a[n + 1..] == a[..n];
      TextsPermute(a[..n], b[..k] + b[k + 1..]);
      Around(a, n);
      Around(b, k);
    }
  }

  /** The data does not depend on the order of the intents, nor on that of the conventions. */
  lemma DataIsOrderFree(a: seq<Subject>, b: seq<Subject>, namesA: seq<string>, namesB: seq<string>,
                        dataA: map<string, string>, dataB: map<string, string>)
    requires multiset(a) == multiset(b) && multiset(namesA) == multiset(namesB)
    requires IsData(a, namesA, dataA) && IsData(b, namesB, dataB)
    ensures dataA == dataB
  {
    var sortedA :| SortedCopy(Less, namesA, sortedA) && IsRendering(KeyText, Contents(a, sortedA), dataA);
    var sortedB :| SortedCopy(Less, namesB, sortedB) && IsRendering(KeyText, Contents(b, sortedB), dataB);
    LessIsTotal(namesA);
    SortIsCanonical(Less, namesA, namesB, sortedA, sortedB);
    SameContents(a, b, sortedA);
    RenderingIsUnique(KeyText, Contents(a, sortedA), dataA, dataB);
  }

  lemma SameContents(a: seq<Subject>, b: seq<Subject>, sorted: seq<string>)
    requires multiset(a) == multiset(b)
    ensures Contents(a, sorted) == Contents(b, sorted)
  {
    SameElements(a, b);
    TextsPermute(a, b);
    SameElements(StatusTexts(a), StatusTexts(b));
    SameElements(OwnerTexts(a), OwnerTexts(b));
    assert SetOf(StatusTexts(a)) == SetOf(StatusTexts(b)) && SetOf(OwnerTexts(a)) == SetOf(OwnerTexts(b));
  }

  // ----- the code -----

  lemma NextTexts(subjects: seq<Subject>, n: nat)
    requires n < |subjects|
    ensures StatusTexts(subjects[..n + 1]) == StatusTexts(subjects[..n]) + [StatusText(subjects[n])]
    ensures OwnerTexts(subjects[..n + 1]) == OwnerTexts(subjects[..n]) +
              if OwnerText(subjects[n]).Some? then [OwnerText(subjects[n]).value] else []
  {
    assert subjects[..n + 1][..n] == subjects[..n];
  }

  method ReadyStatus(s: Subject) returns (status: string)
    ensures status == StatusText(s)
  {
    status := "unknown";
    if s.ready.Some? {
      if s.ready.value == True {
        status := "true";
      }
      if s.ready.value == False {
        status := "false";
      }
    }
  }

  /** The counters, as buildConfigMapData accumulates them in two maps. */
  method CountSubjects(subjects: seq<Subject>) returns (statuses: Counter, owners: Counter)
    ensures IsCounter(statuses, StatusTexts(subjects))
    ensures IsCounter(owners, OwnerTexts(subjects))
  {
    statuses, owners := map[], map[];
    ghost var statusTexts: seq<string> := [];
    ghost var ownerTexts: seq<string> := [];
    for n := 0 to |subjects|
      invariant statusTexts == StatusTexts(subjects[..n]) && ownerTexts == OwnerTexts(subjects[..n])
      invariant IsCounter(statuses, statusTexts) && IsCounter(owners, ownerTexts)
    {
      NextTexts(subjects, n);
      var ownerRef := ControllerOf(subjects[n].owners);
      if ownerRef.Some? {
        var groupKind := GroupKind(ownerRef.value);
        BumpCounts(owners, ownerTexts, groupKind);
        owners, ownerTexts := Bump(owners, groupKind), ownerTexts + [groupKind];
      }
      var status := ReadyStatus(subjects[n]);
      BumpCounts(statuses, statusTexts, status);
      statuses, statusTexts := Bump(statuses, status), statusTexts + [status];
    }
    assert subjects[..|subjects|] == subjects;
  }

  lemma BumpCounts(c: Counter, texts: seq<string>, text: string)
    requires IsCounter(c, texts)
    ensures IsCounter(Bump(c, text), texts + [text])
  {
    assert text !in texts ==> multiset(texts)[text] == 0;
  }

  /** The key of a counter: one family for statuses, one for owners. */
  function CounterKey(ready: bool, text: string): MetricKey {
    if ready then ReadyOf(text) else OwnerOf(text)
  }

  predicate InFamily(k: MetricKey, ready: bool) {
    if ready then k.ReadyOf? else k.OwnerOf?
  }

  function Counted(k: MetricKey): string
    requires k.ReadyOf? || k.OwnerOf?
  {
    if k.ReadyOf? then k.status else k.groupKind
  }

  /** The contents before, and a counter for each text under its key of the family. */
  ghost predicate AddsCounters(before: map<MetricKey, string>, ready: bool, counter: Counter,
                               after: map<MetricKey, string>) {
    forall k: MetricKey ::
      if InFamily(k, ready) then
        (k in after <==> Counted(k) in counter) && (k in after ==> after[k] == Itoa(counter[Counted(k)]))
      else
        (k in after <==> k in before) && (k in after ==> after[k] == before[k])
  }

  /** One `range` loop over a counter, whose entries come in no particular order. */
  method AddCounters(text: MetricKey -> string, ready: bool, counter: Counter,
                     before: map<string, string>, ghost m: map<MetricKey, string>)
    returns (data: map<string, string>, ghost after: map<MetricKey, string>)
    requires Injective(text) && IsRendering(text, m, before)
    requires forall k | k in m :: !InFamily(k, ready)
    ensures IsRendering(text, after, data) && AddsCounters(m, ready, counter, after)
  {
    data, after := before, m;
    var rest := counter.Keys;
    ghost var seen: Counter := map[];
    while rest != {}
      invariant rest <= counter.Keys && IsPart(counter, rest, seen)
      invariant IsRendering(text, after, data)
      invariant AddsCounters(m, ready, seen, after)
      decreases rest
    {
      var t :| t in rest;
      var key := CounterKey(ready, t);
      RenderAdd(text, after, data, key, Itoa(counter[t]));
      AddOneCounter(m, ready, seen, after, t, counter[t]);
      data := data[text(key) := Itoa(counter[t])];
      after := after[key := Itoa(counter[t])];
      seen := seen[t := counter[t]];
      rest := rest - {t};
    }
    assert seen == counter;
  }

  /** The entries of the counter that are no longer to come. */
  ghost predicate IsPart(counter: Counter, rest: set<string>, seen: Counter) {
    seen.Keys == counter.Keys - rest && forall t | t in seen :: seen[t] == counter[t]
  }

  lemma AddOneCounter(before: map<MetricKey, string>, ready: bool, seen: Counter, after: map<MetricKey, string>,
                      t: string, n: nat)
    requires AddsCounters(before, ready, seen, after)
    ensures AddsCounters(before, ready, seen[t := n], after[CounterKey(ready, t) := Itoa(n)])
  {
  }

  method BuildConfigMapData(subjects: seq<Subject>, names: seq<string>) returns (data: map<string, string>)
    ensures IsData(subjects, names, data)
  {
    var statusMap, groupKindMap := CountSubjects(subjects);
    var text: MetricKey -> string := KeyText;
    FamiliesNeverCollide();
    ghost var ready, owned;
    data, ready := AddCounters(text, true, statusMap, map[], map[]);
    data, owned := AddCounters(text, false, groupKindMap, data, ready);
    RenderAdd(text, owned, data, CountOf, Itoa(|subjects|));
    data := data[text(CountOf) := Itoa(|subjects|)];
    var conventionNames := SortSlice(Less, names);
    RenderAdd(text, owned[CountOf := Itoa(|subjects|)], data, NamesOf, Join(conventionNames, '\n'));
    data := data[text(NamesOf) := Join(conventionNames, '\n')];
    AssembledContents(StatusTexts(subjects), OwnerTexts(subjects), |subjects|, conventionNames,
                      statusMap, groupKindMap, ready, owned);
  }

  /** After both loops there is one counter for each status and each owner. */
  lemma CountersOf(statusMap: Counter, ownerMap: Counter, ready: map<MetricKey, string>, owned: map<MetricKey, string>,
                   k: MetricKey)
    requires AddsCounters(map[], true, statusMap, ready)
    requires AddsCounters(ready, false, ownerMap, owned)
    ensures k in owned <==> (k.ReadyOf? && k.status in statusMap) || (k.OwnerOf? && k.groupKind in ownerMap)
    ensures k in owned && k.ReadyOf? ==> k.status in statusMap && owned[k] == Itoa(statusMap[k.status])
    ensures k in owned && k.OwnerOf? ==> k.groupKind in ownerMap && owned[k] == Itoa(ownerMap[k.groupKind])
  {
    assert k in ready <==> k.ReadyOf? && k.status in statusMap;
  }

  lemma ContentsAt(statuses: seq<string>, owners: seq<string>, total: nat, sorted: seq<string>, k: MetricKey)
    ensures var m := ContentsOf(statuses, owners, total, sorted);
      && (k in m <==> (k.ReadyOf? ==> k.status in statuses) && (k.OwnerOf? ==> k.groupKind in owners))
      && (k in m ==> m[k] == ValueOf(k, multiset(statuses), multiset(owners), total, sorted))
  {
  }

  function WithTotals(owned: map<MetricKey, string>, total: nat, sorted: seq<string>): map<MetricKey, string> {
    owned[CountOf := Itoa(total)][NamesOf := Join(sorted, '\n')]
  }

  lemma TotalsAt(owned: map<MetricKey, string>, total: nat, sorted: seq<string>, k: MetricKey)
    ensures var m := WithTotals(owned, total, sorted);
      && (k in m <==> k in owned || k.CountOf? || k.NamesOf?)
      && (k.CountOf? ==> m[k] == Itoa(total))
      && (k.NamesOf? ==> m[k] == Join(sorted, '\n'))
      && (k in owned && !k.CountOf? && !k.NamesOf? ==> m[k] == owned[k])
  {
  }

  lemma AssembledAt(statuses: seq<string>, owners: seq<string>, total: nat, sorted: seq<string>,
                    statusMap: Counter, ownerMap: Counter,
                    ready: map<MetricKey, string>, owned: map<MetricKey, string>, k: MetricKey)
    requires IsCounter(statusMap, statuses) && IsCounter(ownerMap, owners)
    requires AddsCounters(map[], true, statusMap, ready)
    requires AddsCounters(ready, false, ownerMap, owned)
    ensures var m, contents := WithTotals(owned, total, sorted), ContentsOf(statuses, owners, total, sorted);
      (k in m <==> k in contents) && (k in m && k in contents ==> m[k] == contents[k])
  {
    CountersOf(statusMap, ownerMap, ready, owned, k);
    TotalsAt(owned, total, sorted, k);
    ContentsAt(statuses, owners, total, sorted, k);
  }

  lemma AssembledContents(statuses: seq<string>, owners: seq<string>, total: nat, sorted: seq<string>,
                          statusMap: Counter, ownerMap: Counter,
                          ready: map<MetricKey, string>, owned: map<MetricKey, string>)
    requires IsCounter(statusMap, statuses) && IsCounter(ownerMap, owners)
    requires AddsCounters(map[], true, statusMap, ready)
    requires AddsCounters(ready, false, ownerMap, owned)
    ensures WithTotals(owned, total, sorted) == ContentsOf(statuses, owners, total, sorted)
  {
    var m, contents := WithTotals(owned, total, sorted), ContentsOf(statuses, owners, total, sorted);
    forall k ensures (k in m <==> k in contents) && (k in m && k in contents ==> m[k] == contents[k]) {
      AssembledAt(statuses, owners, total, sorted, statusMap, ownerMap, ready, owned, k);
    }
    SameMaps(m, contents);
  }

  lemma SameMaps(a: map<MetricKey, string>, b: map<MetricKey, string>)
    requires forall k :: (k in a <==> k in b) && (k in a && k in b ==> a[k] == b[k])
    ensures a == b
  {
  }

  /** The ConfigMap in the cluster, and how often the reconciler wrote it. */
  class ConfigMap {
    var present: bool
    var deleting: bool
    var data: map<string, string>
    var writes: nat

    constructor ()
      ensures !present && !deleting && data == map[] && writes == 0
    {
      present, deleting, data, writes := false, false, map[], 0;
    }

    /** Reconcile: nothing for another name or while the map is being deleted; an error when a get
        or a list fails; otherwise the map is created, or updated if its data differ from what it
        should hold, unless that write fails. */
    method Reconcile(named: bool, api: Api, subjects: Option<seq<Subject>>,
                     names: Option<seq<string>>) returns (goError: bool)
      modifies this
      ensures deleting == old(deleting)
      ensures !named || (!api.getFails && old(deleting)) ==> !goError && unchanged(this)
      ensures named && (api.getFails || (!old(deleting) && (subjects.None? || names.None?))) ==>
        goError && unchanged(this)
      ensures named && !api.getFails && !old(deleting) && subjects.Some? && names.Some? ==>
        if old(present) && IsData(subjects.value, names.value, old(data)) then !goError && unchanged(this)
        else if api.writeFails then goError && unchanged(this)
        else !goError && present && IsData(subjects.value, names.value, data) && writes == old(writes) + 1
    {
      if !named {
        return false;
      }
      if api.getFails {
        return true;
      }
      if deleting {
        return false;
      }
      if subjects.None? || names.None? {
        return true;
      }
      var contents := BuildConfigMapData(subjects.value, names.value);
      OneData(subjects.value, names.value, contents);
      if present && contents == data {
        return false;
      }
      if api.writeFails {
        return true;
      }
      present, data, writes := true, contents, writes + 1;
      return false;
    }
  }

  /** The API server: which requests fail. */
  datatype Api = Api(getFails: bool, writeFails: bool)

  lemma OneData(subjects: seq<Subject>, names: seq<string>, contents: map<string, string>)
    requires IsData(subjects, names, contents)
    ensures forall data | IsData(subjects, names, data) :: data == contents
  {
    forall data | IsData(subjects, names, data) ensures data == contents {
      DataIsOrderFree(subjects, subjects, names, names, data, contents);
    }
  }

  lemma DataOfReordered(a: seq<Subject>, b: seq<Subject>, namesA: seq<string>, namesB: seq<string>,
                        data: map<string, string>)
    requires multiset(a) == multiset(b) && multiset(namesA) == multiset(namesB) && IsData(a, namesA, data)
    ensures IsData(b, namesB, data)
  {
    var sorted :| SortedCopy(Less, namesA, sorted) && IsRendering(KeyText, Contents(a, sorted), data);
    LessIsTotal(namesA);
    assert SortedCopy(Less, namesB, sorted);
    SameContents(a, b, sorted);
  }

  /** Hence a reconcile of a map that holds the data of the same intents and conventions, in
      whatever order they were listed, writes nothing, and succeeds even if writes would fail. */
  method ReconcileAgain(configMap: ConfigMap, api: Api, subjects: seq<Subject>, names: seq<string>,
                        ghost before: seq<Subject>, ghost namesBefore: seq<string>)
    returns (goError: bool)
    requires configMap.present && IsData(before, namesBefore, configMap.data)
    requires multiset(subjects) == multiset(before) && multiset(names) == multiset(namesBefore)
    modifies configMap
    ensures unchanged(configMap) && (goError <==> api.getFails)
  {
    DataOfReordered(before, subjects, namesBefore, names, configMap.data);
    goError := configMap.Reconcile(true, api, Some(subjects), Some(names));
  }
}
