/** The convention pipeline: which conventions apply, in which order, and what a run of their
    webhooks does to a template. */
module Conventions {
  import opened Wrappers
  import opened Text
  import opened Sorting
  import opened Selectors
  import opened ConventionTypes

  // ----- Filter -----

  function TargetLabels(c: Convention, collected: map<string, Labels>): Labels {
    if c.selectorTarget in collected then collected[c.selectorTarget] else map[]
  }

  /** Some selector matches, or there are none. */
  predicate Selected(c: Convention, collected: map<string, Labels>) {
    c.selectors == []
    || exists k :: 0 <= k < |c.selectors| && Select(c.selectors[k], TargetLabels(c, collected)) == Some(true)
  }

  /** Some selector is invalid, and none before it matches. */
  predicate Broken(c: Convention, collected: map<string, Labels>) {
    exists k :: 0 <= k < |c.selectors| && FirstInvalid(c, collected, k)
  }

  predicate FirstInvalid(c: Convention, collected: map<string, Labels>, k: nat)
    requires k < |c.selectors|
  {
    Select(c.selectors[k], TargetLabels(c, collected)).None?
    && forall j | 0 <= j < k :: Select(c.selectors[j], TargetLabels(c, collected)) == Some(false)
  }

  /** The order-preserving subsequence of the selected conventions. */
  function Selection(cs: seq<Convention>, collected: map<string, Labels>): seq<Convention> {
    if cs == [] then []
    else
      var n := |cs| - 1;
      Selection(cs[..n], collected) + if Selected(cs[n], collected) then [cs[n]] else []
  }

  method Filter(conventions: seq<Convention>, collected: map<string, Labels>) returns (r: Option<seq<Convention>>)
    ensures r.None? <==> exists i :: 0 <= i < |conventions| && Broken(conventions[i], collected)
    ensures r.Some? ==> r.value == Selection(conventions, collected)
  {
    var filtered: seq<Convention> := [];
    for n := 0 to |conventions|
      invariant forall i | 0 <= i < n :: !Broken(conventions[i], collected)
      invariant filtered == Selection(conventions[..n], collected)
    {
      assert conventions[..n + 1][..n] == conventions[..n];
      var source := conventions[n];
      var selectors := source.selectors;
      if |selectors| == 0 {
        selectors := [EVERYTHING];
      }
      var labels := TargetLabels(source, collected);
      var selected := false;
      for k := 0 to |selectors|
        invariant !selected
        invariant forall j | 0 <= j < k :: Select(selectors[j], labels) == Some(false)
      {
        var matches := Select(selectors[k], labels);
        if matches.None? {
          assert FirstInvalid(source, collected, k);
          return None;
        }
        if matches.value {
          MatchDecides(source, collected, k);
          selected := true;
          break;
        }
      }
      if !selected {
        assert Select(EVERYTHING, labels) == Some(true);
        assert Select(selectors[0], labels) == Some(false) || selectors == [];
      }
      assert selected == Selected(source, collected);
      if selected {
        filtered := filtered + [source];
      }
    }
    assert conventions[..|conventions|] == conventions;
    return Some(filtered);
  }

  /** A match with only mismatches before it settles the convention, whatever follows. */
  lemma MatchDecides(c: Convention, collected: map<string, Labels>, k: nat)
    requires c.selectors == []
             || (k < |c.selectors| && Select(c.selectors[k], TargetLabels(c, collected)) == Some(true))
    requires forall j | 0 <= j < k && j < |c.selectors| ::
               Select(c.selectors[j], TargetLabels(c, collected)) == Some(false)
    ensures Selected(c, collected) && !Broken(c, collected)
  {
  }

  /** The selectors are tried in order against the labels of the target; the first that does not simply
      mismatch decides, and without selectors the convention is selected. */
  lemma FirstDecides(c: Convention, collected: map<string, Labels>, labels: Labels, k: nat)
    requires k <= |c.selectors| && (k == |c.selectors| ==> c.selectors != [])
    requires labels == if c.selectorTarget in collected then collected[c.selectorTarget] else map[]
    requires forall j | 0 <= j < k :: Select(c.selectors[j], labels) == Some(false)
    ensures k == |c.selectors| ==> !Selected(c, collected) && !Broken(c, collected)
    ensures k < |c.selectors| && Select(c.selectors[k], labels) == Some(true) ==>
      Selected(c, collected) && !Broken(c, collected)
    ensures k < |c.selectors| && Select(c.selectors[k], labels).None? ==> Broken(c, collected)
  {
    if k < |c.selectors| && Select(c.selectors[k], labels).None? {
      assert FirstInvalid(c, collected, k);
    }
  }

  /** A selection holds exactly the selected conventions, each as often as it occurs. */
  lemma {:induction false} SelectionMembers(cs: seq<Convention>, collected: map<string, Labels>, c: Convention)
    ensures c in Selection(cs, collected) <==> c in cs && Selected(c, collected)
    ensures multiset(Selection(cs, collected))[c] == if Selected(c, collected) then multiset(cs)[c] else 0
  {
    if cs != [] {
      var n := |cs| - 1;
      assert cs == cs[..n] + [cs[n]];
      SelectionMembers(cs[..n], collected, c);
    }
  }

  /** Selection keeps the order: what precedes in the list precedes in the selection. */
  lemma {:induction false} SelectionConcat(a: seq<Convention>, b: seq<Convention>, collected: map<string, Labels>)
    ensures Selection(a + b, collected) == Selection(a, collected) + Selection(b, collected)
  {
    if b == [] {
      assert a + b == a;
    } else {
      var m := |b| - 1;
      assert (a + b)[..|a + b| - 1] == a + b[..m];
      SelectionConcat(a, b[..m], collected);
    }
  }

  // ----- Sort -----

  /** The comparator of Sort. */
  predicate Before(a: Convention, b: Convention) {
    if a.priority == b.priority then Less(a.name, b.name)
    else a.priority == EARLY || b.priority == LATE
  }

  predicate LegalPriority(c: Convention) {
    c.priority == "Early" || c.priority == "Normal" || c.priority == "Late"
  }

  function Rank(priority: string): nat {
    if priority == EARLY then 0 else if priority == LATE then 2 else 1
  }

  predicate NamesDiffer(cs: seq<Convention>) {
    forall i, j | 0 <= i < j < |cs| :: cs[i].name != cs[j].name
  }

  ghost predicate DistinctNames(cs: seq<Convention>) {
    forall a, b | a in cs && b in cs && a.name == b.name :: a == b
  }

  /** Two middle priorities that differ, one of them shared by two names. */
  ghost predicate Tangled(a: Convention, b: Convention, c: Convention) {
    && Rank(a.priority) == 1 && Rank(b.priority) == 1 && a.priority != b.priority
    && c.priority == a.priority && c.name != a.name
  }

  /** The comparator is a strict weak order exactly when no middle priority other than one
      common to all is shared by two names. */
  lemma ComparatorDomain(cs: seq<Convention>)
    ensures StrictWeakOrder(Before, cs) <==> !exists a, b, c :: a in cs && b in cs && c in cs && Tangled(a, b, c)
  {
    if StrictWeakOrder(Before, cs) {
      forall a, b, c | a in cs && b in cs && c in cs ensures !Tangled(a, b, c) {
        if Tangled(a, b, c) {
          LessTotal(a.name, c.name);
          assert !Before(a, b) && !Before(b, a) && !Before(c, b) && !Before(b, c);
          NegativelyTransitive(Before, cs, a, b, c);
          NegativelyTransitive(Before, cs, c, b, a);
          assert false;
        }
      }
    } else {
      UntangledIsOrder(cs);
    }
  }

  lemma UntangledIsOrder(cs: seq<Convention>)
    ensures StrictWeakOrder(Before, cs) || exists a, b, c :: a in cs && b in cs && c in cs && Tangled(a, b, c)
  {
    if !exists a, b, c :: a in cs && b in cs && c in cs && Tangled(a, b, c) {
      forall a ensures !Before(a, a) { LessIrreflexive(a.name); }
      forall a, b | Before(a, b) ensures !Before(b, a) {
        if Before(b, a) && a.priority == b.priority {
          LessTransitive(a.name, b.name, a.name);
          LessIrreflexive(a.name);
        }
      }
      forall a, b, c | a in cs && b in cs && c in cs && Before(a, c) ensures Before(a, b) || Before(b, c) {
        assert !Tangled(a, b, c) && !Tangled(c, b, a);
        ThirdPlace(a, b, c);
      }
    }
  }

  lemma ThirdPlace(a: Convention, b: Convention, c: Convention)
    requires Before(a, c) && !Tangled(a, b, c) && !Tangled(c, b, a)
    ensures Before(a, b) || Before(b, c)
  {
    if a.priority == b.priority == c.priority {
      if a.name != b.name && !Less(a.name, b.name) {
        LessTotal(a.name, b.name);
        LessTransitive(b.name, a.name, c.name);
      }
    } else if a.priority == c.priority {
      LessIrreflexive(a.name);
    }
  }

  /** Two conventions without a priority, and one of the default priority: neither comes before it
      nor after it, and yet one comes before the other. */
  lemma ComparatorExample()
    ensures var cs := [
        Convention("a", "", [], "", NO_CLIENT),
        Convention("b", "", [], NORMAL, NO_CLIENT),
        Convention("c", "", [], "", NO_CLIENT)];
      !StrictWeakOrder(Before, cs)
  {
    var a, b := Convention("a", "", [], "", NO_CLIENT), Convention("b", "", [], NORMAL, NO_CLIENT);
    var c := Convention("c", "", [], "", NO_CLIENT);
    var cs := [a, b, c];
    assert a == cs[0] && b == cs[1] && c == cs[2];
    assert Tangled(a, b, c);
    ComparatorDomain(cs);
  }

  lemma LegalIsOrder(cs: seq<Convention>)
    requires forall c | c in cs :: LegalPriority(c)
    ensures StrictWeakOrder(Before, cs)
  {
    ComparatorDomain(cs);
  }

  /** With legal priorities and distinct names the comparator is a strict total order. */
  lemma LegalIsTotal(cs: seq<Convention>)
    requires forall c | c in cs :: LegalPriority(c)
    requires DistinctNames(cs)
    ensures StrictTotalOrder(Before, cs)
  {
    LegalIsOrder(cs);
    forall a, b | a in cs && b in cs && a != b ensures Before(a, b) || Before(b, a) {
      if a.priority == b.priority {
        LessTotal(a.name, b.name);
      }
    }
  }

  /** Early conventions first and Late ones last; those of one priority in the string order of their names. */
  ghost predicate InBlocks(cs: seq<Convention>) {
    forall i, j | 0 <= i < j < |cs| :: ComesFirst(cs[i], cs[j])
  }

  ghost predicate ComesFirst(a: Convention, b: Convention) {
    || (a.priority == "Early" && b.priority != "Early")
    || (a.priority != "Late" && b.priority == "Late")
    || (a.priority == b.priority && Precedes(a.name, b.name))
  }

  lemma BeforeComesFirst(a: Convention, b: Convention)
    requires Before(a, b)
    ensures ComesFirst(a, b)
  {
    LessIsPrecedes(a.name, b.name);
  }

  /** Sorting is canonical: any two sorts of any two orderings of the same conventions agree,
      and the result lies in priority blocks ordered by name. */
  lemma SortIsCanonicalByPriority(a: seq<Convention>, b: seq<Convention>, sortedA: seq<Convention>,
                                  sortedB: seq<Convention>)
    requires forall c | c in a :: LegalPriority(c)
    requires NamesDiffer(a)
    requires multiset(a) == multiset(b)
    requires SortedCopy(Before, a, sortedA) && SortedCopy(Before, b, sortedB)
    ensures sortedA == sortedB && InBlocks(sortedA)
  {
    NamesAreDistinct(a);
    LegalIsTotal(a);
    SortIsCanonical(Before, a, b, sortedA, sortedB);
    SameElements(a, sortedA);
    forall i, j | 0 <= i < j < |sortedA| ensures ComesFirst(sortedA[i], sortedA[j]) {
      var x, y := sortedA[i], sortedA[j];
      assert x in a && y in a && !Before(y, x);
      if x == y {
        RepeatedCount(sortedA, i, j);
        DistinctCount(a, x);
        assert false;
      }
      BeforeComesFirst(x, y);
    }
  }

  lemma SortedInBlocks(before: seq<Convention>, after: seq<Convention>)
    requires SortedCopy(Before, before, after)
    ensures (forall c | c in before :: LegalPriority(c)) && NamesDiffer(before) ==> InBlocks(after)
  {
    if (forall c | c in before :: LegalPriority(c)) && NamesDiffer(before) {
      SortIsCanonicalByPriority(before, before, after, after);
    }
  }

  lemma NamesAreDistinct(a: seq<Convention>)
    requires NamesDiffer(a)
    ensures DistinctNames(a)
  {
  }
}
