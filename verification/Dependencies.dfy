/** Look-ups in the bills of materials of an image. */
module Dependencies {
  import opened Wrappers
  import opened Core

  /** The components of every CycloneDX bill that has a component list, in order. */
  function Components(boms: seq<BOM>): seq<Component> {
    if boms == [] then []
    else
      var last := boms[|boms| - 1];
      Components(boms[..|boms| - 1]) + if last.CycloneDX? && last.components.Some? then last.components.value else []
  }

  function Find(deps: seq<Component>, name: string): (r: Option<Component>)
    ensures r.Some? <==> exists c :: c in deps && c.name == name
    ensures r.Some? ==> r.value in deps && r.value.name == name
  {
    if deps == [] then None
    else if deps[0].name == name then Some(deps[0])
    else
      assert deps == [deps[0]] + deps[1..];
      Find(deps[1..], name)
  }

  predicate Lists(deps: seq<Component>, name: string) {
    exists k :: 0 <= k < |deps| && deps[k].name == name
  }

  /** The version of the first component of that name. */
  ghost predicate FirstVersion(deps: seq<Component>, name: string, version: string) {
    exists k :: 0 <= k < |deps| && deps[k] == Component(name, version) && NotBefore(deps, name, k)
  }

  predicate NotBefore(deps: seq<Component>, name: string, k: nat)
    requires k <= |deps|
  {
    forall j | 0 <= j < k :: deps[j].name != name
  }

  /** Find yields the first component of the name, if any is listed. */
  lemma FindMeans(deps: seq<Component>, name: string, version: string)
    ensures Find(deps, name).Some? <==> Lists(deps, name)
    ensures Find(deps, name) == Some(Component(name, version)) <==> FirstVersion(deps, name, version)
  {
    if Find(deps, name).Some? {
      var k := FindPosition(deps, name);
    }
    if k :| 0 <= k < |deps| && deps[k] == Component(name, version) && NotBefore(deps, name, k) {
      FindFirst(deps, k, name);
    }
  }

  lemma {:induction false} FindPosition(deps: seq<Component>, name: string) returns (k: nat)
    requires Find(deps, name).Some?
    ensures k < |deps| && deps[k] == Find(deps, name).value && NotBefore(deps, name, k)
  {
    k := 0;
    if deps[0].name != name {
      var rest := FindPosition(deps[1..], name);
      k := rest + 1;
      forall j | 0 <= j < k ensures deps[j].name != name {
        assert j > 0 ==> deps[j] == deps[1..][j - 1];
      }
    }
  }

  /** A list of names is present as soon as one of them is. */
  lemma HasMeans(deps: seq<Component>, names: seq<string>)
    ensures Has(deps, names) <==> exists n :: 0 <= n < |names| && Lists(deps, names[n])
  {
    if c :| c in deps && c.name in names {
      var k :| 0 <= k < |deps| && deps[k] == c;
      var n :| 0 <= n < |names| && names[n] == c.name;
      assert Lists(deps, names[n]);
    }
    if n :| 0 <= n < |names| && Lists(deps, names[n]) {
      var k :| 0 <= k < |deps| && deps[k].name == names[n];
      assert deps[k] in deps && names[n] in names;
    }
  }

  /** A constraint is asked of the version of the first component of the name, and fails without one. */
  lemma SatisfiesMeans(deps: seq<Component>, name: string, constraint: string, semver: (string, string) -> bool)
    ensures Satisfies(deps, name, constraint, semver) <==>
              exists version :: FirstVersion(deps, name, version) && semver(version, constraint)
  {
    var found := Find(deps, name);
    if found.Some? {
      FindMeans(deps, name, found.value.version);
    }
    forall version | FirstVersion(deps, name, version) ensures found == Some(Component(name, version)) {
      FindMeans(deps, name, version);
    }
  }

  /** The components of all bills one after the other. */
  lemma {:induction false} ComponentsConcat(a: seq<BOM>, b: seq<BOM>)
    ensures Components(a + b) == Components(a) + Components(b)
  {
    if b == [] {
      assert a + b == a;
    } else {
      var n := |b| - 1;
      assert (a + b)[..|a + b| - 1] == a + b[..n];
      assert Components(a + b) == Components(a + b[..n]) + BillComponents(b[n]);
      ComponentsConcat(a, b[..n]);
    }
  }

  function BillComponents(bill: BOM): seq<Component> {
    match bill
    case CycloneDX(Some(cs)) => cs
    case CycloneDX(None) => []
    case OtherFormat => []
  }

  /** Those of one bill: other formats and bills without a list have none. */
  lemma ComponentsOfOne(bill: BOM)
    ensures Components([bill]) == BillComponents(bill)
  {
    assert [bill][..0] == [];
  }

  predicate Has(deps: seq<Component>, names: seq<string>) {
    exists c :: c in deps && c.name in names
  }

  /** The first listed name that is present. */
  function FirstPresent(deps: seq<Component>, names: seq<string>): Option<Component> {
    if names == [] then None
    else if Find(deps, names[0]).Some? then Find(deps, names[0])
    else FirstPresent(deps, names[1..])
  }

  predicate IsFirstPresent(deps: seq<Component>, names: seq<string>, k: nat)
    requires k < |names|
  {
    && FirstPresent(deps, names) == Find(deps, names[k])
    && Find(deps, names[k]).Some?
    && forall j | 0 <= j < k :: Find(deps, names[j]).None?
  }

  /** The two look-ups agree: a listed dependency is reported exactly when one can be fetched,
      and the one fetched is the first listed name that is present. */
  lemma {:induction false} LookupsAgree(deps: seq<Component>, names: seq<string>)
    ensures Has(deps, names) <==> exists n :: n in names && Find(deps, n).Some?
    ensures Has(deps, names) <==> FirstPresent(deps, names).Some?
    ensures Has(deps, names) ==> exists k :: 0 <= k < |names| && IsFirstPresent(deps, names, k)
  {
    if names != [] {
      LookupsAgree(deps, names[1..]);
      assert names == [names[0]] + names[1..];
      if Has(deps, names[1..]) && Find(deps, names[0]).None? {
        var k :| 0 <= k < |names[1..]| && IsFirstPresent(deps, names[1..], k);
        forall j | 0 <= j < k + 1 ensures Find(deps, names[j]).None? {
          assert j > 0 ==> names[j] == names[1..][j - 1];
        }
        assert IsFirstPresent(deps, names, k + 1);
      } else if Find(deps, names[0]).Some? {
        assert Find(deps, names[0]).value.name in names;
        assert IsFirstPresent(deps, names, 0);
      }
    }
  }

  class DependenciesBOM {
    var boms: seq<Option<seq<Component>>>

    /** The components of the bills that could be decoded. */
    function View(): seq<Component>
      reads this
    {
      Flatten(boms)
    }

    constructor NewDependenciesBOM(source: seq<BOM>)
      ensures View() == Components(source)
    {
      boms := [];
      new;
      for n := 0 to |source|
        invariant View() == Components(source[..n])
      {
        assert source[..n + 1][..n] == source[..n];
        if source[n].CycloneDX? {
          ghost var was := boms;
          boms := boms + [source[n].components];
          assert boms[..|was|] == was;
        }
      }
      assert source[..|source|] == source;
    }

    method Dependency(name: string) returns (r: Option<Component>)
      ensures r == Find(View(), name)
    {
      for n := 0 to |boms|
        invariant forall c | c in Flatten(boms[..n]) :: c.name != name
      {
        assert boms[..n + 1][..n] == boms[..n];
        if boms[n].None? {
          continue;
        }
        var components := boms[n].value;
        for k := 0 to |components|
          invariant forall j | 0 <= j < k :: components[j].name != name
        {
          if components[k].name == name {
            FlattenPrefix(boms, n + 1);
            FindFirst(View(), |Flatten(boms[..n])| + k, name);
            return Some(components[k]);
          }
        }
      }
      assert boms[..|boms|] == boms;
      return None;
    }

    method HasDependency(names: seq<string>) returns (r: bool)
      ensures r <==> Has(View(), names)
    {
      for n := 0 to |boms|
        invariant forall c | c in Flatten(boms[..n]) :: c.name !in names
      {
        assert boms[..n + 1][..n] == boms[..n];
        if boms[n].None? {
          continue;
        }
        var components := boms[n].value;
        for k := 0 to |components|
          invariant forall j | 0 <= j < k :: components[j].name !in names
        {
          if components[k].name in names {
            FlattenPrefix(boms, n + 1);
            assert View()[|Flatten(boms[..n])| + k] == components[k];
            return true;
          }
        }
      }
      assert boms[..|boms|] == boms;
      return false;
    }

    /** Version constraints are decided by a semantic-version library, here a parameter. */
    method HasDependencyConstraint(name: string, constraint: string, semver: (string, string) -> bool) returns (r: bool)
      ensures r <==> Satisfies(View(), name, constraint, semver)
    {
      var d := Dependency(name);
      if d.None? {
        return false;
      }
      return semver(d.value.version, constraint);
    }
  }

  predicate Satisfies(deps: seq<Component>, name: string, constraint: string, semver: (string, string) -> bool) {
    var d := Find(deps, name);
    d.Some? && semver(d.value.version, constraint)
  }

  function Flatten(boms: seq<Option<seq<Component>>>): seq<Component> {
    if boms == [] then []
    else
      var last := boms[|boms| - 1];
      Flatten(boms[..|boms| - 1]) + if last.Some? then last.value else []
  }

  lemma {:induction false} FlattenPrefix(boms: seq<Option<seq<Component>>>, n: nat)
    requires n <= |boms|
    ensures Flatten(boms[..n]) <= Flatten(boms)
  {
    if n < |boms| {
      FlattenPrefix(boms[..|boms| - 1], n);
      assert boms[..|boms| - 1][..n] == boms[..n];
    } else {
      assert boms[..n] == boms;
    }
  }

  lemma {:induction false} FindFirst(deps: seq<Component>, k: nat, name: string)
    requires k < |deps| && deps[k].name == name
    requires forall j | 0 <= j < k :: deps[j].name != name
    ensures Find(deps, name) == Some(deps[k])
  {
    if k > 0 {
      FindFirst(deps[1..], k - 1, name);
    }
  }
}
