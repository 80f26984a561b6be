/** The certificate authorities of a convention's webhook, taken from cert-manager requests. */
module CABundle {
  import opened Wrappers
  import opened Sorting
  import opened ConventionTypes

  const CERTIFICATE_NAME := "cert-manager.io/certificate-name"

  datatype RequestCondition = RequestCondition(kind: string, status: string)

  datatype CertificateRequest = CertificateRequest(
    annotations: Option<map<string, string>>,
    ca: Bytes,
    conditions: seq<RequestCondition>,
    created: int)

  predicate IsFor(r: CertificateRequest, name: string) {
    r.annotations.Some?
    && name == if CERTIFICATE_NAME in r.annotations.value then r.annotations.value[CERTIFICATE_NAME] else ""
  }

  predicate IsReady(r: CertificateRequest) {
    RequestCondition("Ready", "True") in r.conditions
  }

  predicate Eligible(r: CertificateRequest, name: string) {
    IsFor(r, name) && r.ca != [] && IsReady(r)
  }

  function Eligibles(requests: seq<CertificateRequest>, name: string): seq<CertificateRequest> {
    if requests == [] then []
    else
      var n := |requests| - 1;
      Eligibles(requests[..n], name) + if Eligible(requests[n], name) then [requests[n]] else []
  }

  predicate Newer(a: CertificateRequest, b: CertificateRequest) {
    b.created < a.created
  }

  function Concat(requests: seq<CertificateRequest>): Bytes {
    if requests == [] then []
    else Concat(requests[..|requests| - 1]) + requests[|requests| - 1].ca
  }

  function AtMostThree(n: nat): nat {
    if n < 3 then n else 3
  }

  /** The authorities of the three newest of the given requests, newest first. */
  ghost predicate IsBundle(eligible: seq<CertificateRequest>, bundle: Bytes) {
    exists s :: SortedCopy(Newer, eligible, s) && bundle == Concat(s[..AtMostThree(|s|)])
  }

  method GetCABundle(requests: Option<seq<CertificateRequest>>, certRef: CertificateRef) returns (r: Option<Bytes>)
    ensures r.None? <==> requests.None? || Eligibles(requests.value, certRef.name) == []
    ensures r.Some? ==> IsBundle(Eligibles(requests.value, certRef.name), r.value)
  {
    if requests.None? {
      return None;
    }
    var all := requests.value;
    var certReqs: seq<CertificateRequest> := [];
    for n := 0 to |all|
      invariant certReqs == Eligibles(all[..n], certRef.name)
    {
      assert all[..n + 1][..n] == all[..n];
      var certReq := all[n];
      if !IsFor(certReq, certRef.name) || |certReq.ca| == 0 {
        continue;
      }
      var readyFound := false;
      for k := 0 to |certReq.conditions|
        invariant readyFound <==> RequestCondition("Ready", "True") in certReq.conditions[..k]
      {
        if certReq.conditions[k].kind == "Ready" && certReq.conditions[k].status == "True" {
          readyFound := true;
        }
      }
      assert certReq.conditions[..|certReq.conditions|] == certReq.conditions;
      if !readyFound {
        continue;
      }
      certReqs := certReqs + [certReq];
    }
    assert all[..|all|] == all;
    if |certReqs| == 0 {
      return None;
    }
    var sorted := SortSlice(Newer, certReqs);
    var caData: Bytes := [];
    for i := 0 to |sorted|
      invariant caData == Concat(sorted[..AtMostThree(i)])
    {
      if i >= 3 {
        continue;
      }
      assert sorted[..i + 1][..i] == sorted[..i];
      caData := caData + sorted[i].ca;
    }
    return Some(caData);
  }

  /** So the look-up fails exactly when no listed request is eligible. */
  lemma {:induction false} EligiblesMembers(requests: seq<CertificateRequest>, name: string)
    ensures forall r :: r in Eligibles(requests, name) <==> r in requests && Eligible(r, name)
  {
    if requests != [] {
      var n := |requests| - 1;
      assert requests == requests[..n] + [requests[n]];
      EligiblesMembers(requests[..n], name);
    }
  }

  /** An eligible request is considered as often as it is listed. */
  lemma {:induction false} EligiblesPermute(a: seq<CertificateRequest>, name: string, r: CertificateRequest)
    ensures multiset(Eligibles(a, name))[r] == if Eligible(r, name) then multiset(a)[r] else 0
  {
    if a != [] {
      var n := |a| - 1;
      assert a == a[..n] + [a[n]];
      EligiblesPermute(a[..n], name, r);
    }
  }

  /** A request counts if it is annotated with the certificate's name (a missing name counts as the empty
      one, but not a missing map), has an authority, and has a Ready condition that is True. */
  lemma EligibleMeans(r: CertificateRequest, name: string)
    ensures Eligible(r, name) <==>
      && r.annotations.Some?
      && ("cert-manager.io/certificate-name" in r.annotations.value ==>
            r.annotations.value["cert-manager.io/certificate-name"] == name)
      && ("cert-manager.io/certificate-name" !in r.annotations.value ==> name == "")
      && |r.ca| > 0
      && exists k :: 0 <= k < |r.conditions| && r.conditions[k].kind == "Ready" && r.conditions[k].status == "True"
  {
    if k :| 0 <= k < |r.conditions| && r.conditions[k].kind == "Ready" && r.conditions[k].status == "True" {
      assert r.conditions[k] == RequestCondition("Ready", "True");
    }
  }

  /** A bundle joins the authorities of the newest three requests, or of all when there are fewer. */
  lemma BundleMeans(eligible: seq<CertificateRequest>, bundle: Bytes) returns (s: seq<CertificateRequest>)
    requires IsBundle(eligible, bundle)
    ensures multiset(s) == multiset(eligible) && |s| == |eligible|
    ensures forall i, j | 0 <= i < j < |s| :: s[j].created <= s[i].created
    ensures |s| == 1 ==> bundle == s[0].ca
    ensures |s| == 2 ==> bundle == s[0].ca + s[1].ca
    ensures |s| >= 3 ==> bundle == s[0].ca + s[1].ca + s[2].ca
  {
    s :| SortedCopy(Newer, eligible, s) && bundle == Concat(s[..AtMostThree(|s|)]);
    SameElements(eligible, s);
    forall i, j | 0 <= i < j < |s| ensures s[j].created <= s[i].created {
      KeptAreNewest(eligible, s, i, j);
    }
    if |s| > 0 {
      JoinedAuthorities(s[..AtMostThree(|s|)]);
    }
  }

  lemma JoinedAuthorities(s: seq<CertificateRequest>)
    requires 0 < |s| <= 3
    ensures |s| == 1 ==> Concat(s) == s[0].ca
    ensures |s| == 2 ==> Concat(s) == s[0].ca + s[1].ca
    ensures |s| == 3 ==> Concat(s) == s[0].ca + s[1].ca + s[2].ca
  {
    var n := |s| - 1;
    var before := Concat(s[..n]);
    assert Concat(s) == before + s[n].ca;
    if n == 0 {
      assert before == [];
    } else {
      JoinedAuthorities(s[..n]);
      assert s[..n][0] == s[0] && (n == 2 ==> s[..n][1] == s[1]);
    }
  }

  // ----- which requests are kept -----

  lemma NewerIsWeakOrder(s: seq<CertificateRequest>)
    ensures StrictWeakOrder(Newer, s)
  {
  }

  ghost predicate DistinctTimes(s: seq<CertificateRequest>) {
    forall i, j | 0 <= i < j < |s| :: s[i].created != s[j].created
  }

  lemma DistinctTimesTotal(s: seq<CertificateRequest>)
    requires DistinctTimes(s)
    ensures StrictTotalOrder(Newer, s)
  {
    NewerIsWeakOrder(s);
  }

  /** Every kept request is at least as recent as every dropped one, and they come newest first. */
  lemma KeptAreNewest(eligible: seq<CertificateRequest>, s: seq<CertificateRequest>, i: nat, j: nat)
    requires SortedCopy(Newer, eligible, s) && i < j < |s|
    ensures s[j].created <= s[i].created
    ensures |s| == |eligible|
  {
    NewerIsWeakOrder(eligible);
    SameElements(eligible, s);
    assert !Newer(s[j], s[i]);
  }

  lemma EligiblesPermuted(a: seq<CertificateRequest>, b: seq<CertificateRequest>, name: string)
    requires multiset(a) == multiset(b)
    ensures multiset(Eligibles(a, name)) == multiset(Eligibles(b, name))
  {
    forall r ensures multiset(Eligibles(a, name))[r] == multiset(Eligibles(b, name))[r] {
      EligiblesPermute(a, name, r);
      EligiblesPermute(b, name, r);
    }
  }

  lemma EligiblesWith(a: seq<CertificateRequest>, b: seq<CertificateRequest>, x: CertificateRequest, name: string)
    requires multiset(b) == multiset(a) + multiset{x}
    ensures multiset(Eligibles(b, name))
         == multiset(Eligibles(a, name)) + if Eligible(x, name) then multiset{x} else multiset{}
  {
    var more := if Eligible(x, name) then multiset{x} else multiset{};
    forall r ensures multiset(Eligibles(b, name))[r] == (multiset(Eligibles(a, name)) + more)[r] {
      EligiblesPermute(a, name, r);
      EligiblesPermute(b, name, r);
    }
  }

  lemma BundleIsUnique(a: seq<CertificateRequest>, b: seq<CertificateRequest>, bundleA: Bytes, bundleB: Bytes)
    requires multiset(a) == multiset(b) && DistinctTimes(a)
    requires IsBundle(a, bundleA) && IsBundle(b, bundleB)
    ensures bundleA == bundleB
  {
    var s :| SortedCopy(Newer, a, s) && bundleA == Concat(s[..AtMostThree(|s|)]);
    var u :| SortedCopy(Newer, b, u) && bundleB == Concat(u[..AtMostThree(|u|)]);
    DistinctTimesTotal(a);
    SortIsCanonical(Newer, a, b, s, u);
  }

  /** When the eligible requests have distinct timestamps, the look-up does not depend on the order
      in which the requests are listed: both fail, or both give the same bundle. */
  lemma BundleIsOrderFree(a: seq<CertificateRequest>, b: seq<CertificateRequest>, name: string, bundleA: Bytes,
                          bundleB: Bytes)
    requires multiset(a) == multiset(b) && DistinctTimes(Eligibles(a, name))
    requires IsBundle(Eligibles(a, name), bundleA) && IsBundle(Eligibles(b, name), bundleB)
    ensures bundleA == bundleB && (Eligibles(a, name) == [] <==> Eligibles(b, name) == [])
  {
    EligiblesPermuted(a, b, name);
    SameElements(Eligibles(a, name), Eligibles(b, name));
    BundleIsUnique(Eligibles(a, name), Eligibles(b, name), bundleA, bundleB);
  }

  /** At least three eligible requests are newer than x. */
  ghost predicate ThreeNewer(eligible: seq<CertificateRequest>, x: CertificateRequest) {
    exists i, j, k :: 0 <= i < j < k < |eligible|
      && Newer(eligible[i], x) && Newer(eligible[j], x) && Newer(eligible[k], x)
  }

  /** Nor does it change when any request is added, anywhere in the list, that is not eligible or
      is older than three eligible ones. */
  lemma OlderRequestIsIgnored(a: seq<CertificateRequest>, b: seq<CertificateRequest>, x: CertificateRequest,
                              name: string,
                              bundleA: Bytes, bundleB: Bytes)
    requires multiset(b) == multiset(a) + multiset{x} && DistinctTimes(Eligibles(b, name))
    requires Eligible(x, name) ==> ThreeNewer(Eligibles(a, name), x)
    requires IsBundle(Eligibles(a, name), bundleA) && IsBundle(Eligibles(b, name), bundleB)
    ensures bundleA == bundleB
  {
    EligiblesWith(a, b, x, name);
    if Eligible(x, name) {
      OlderIsIgnored(Eligibles(a, name), Eligibles(b, name), x, bundleA, bundleB);
    } else {
      BundleIsUnique(Eligibles(b, name), Eligibles(a, name), bundleB, bundleA);
    }
  }

  lemma OlderIsIgnored(a: seq<CertificateRequest>, b: seq<CertificateRequest>, x: CertificateRequest, bundleA: Bytes,
                       bundleB: Bytes)
    requires multiset(b) == multiset(a) + multiset{x} && DistinctTimes(b) && ThreeNewer(a, x)
    requires IsBundle(a, bundleA) && IsBundle(b, bundleB)
    ensures bundleA == bundleB
  {
    var i, j, k :| 0 <= i < j < k < |a| && Newer(a[i], x) && Newer(a[j], x) && Newer(a[k], x);
    var s :| SortedCopy(Newer, a, s) && bundleA == Concat(s[..AtMostThree(|s|)]);
    var u :| SortedCopy(Newer, b, u) && bundleB == Concat(u[..AtMostThree(|u|)]);
    SameFirstThree(a, b, x, i, j, k, s, u);
  }

  lemma SameFirstThree(a: seq<CertificateRequest>, b: seq<CertificateRequest>, x: CertificateRequest, i: nat, j: nat,
                       k: nat,
                       s: seq<CertificateRequest>, u: seq<CertificateRequest>)
    requires multiset(b) == multiset(a) + multiset{x} && DistinctTimes(b)
    requires i < j < k < |a| && Newer(a[i], x) && Newer(a[j], x) && Newer(a[k], x)
    requires SortedCopy(Newer, a, s) && SortedCopy(Newer, b, u)
    ensures |s| >= 3 && |u| >= 3 && u[..3] == s[..3]
  {
    NewerIsWeakOrder(a);
    var at := FirstThreeAreNewer(a, s, x, i, j, k);
    var r := s[..at] + [x] + s[at..];
    InsertedElements(s, at, x);
    DistinctTimesTotal(b);
    SortIsCanonical(Newer, b, b, r, u);
    assert r[..3] == s[..3];
  }

  lemma InsertedElements(s: seq<CertificateRequest>, at: nat, x: CertificateRequest)
    requires at <= |s|
    ensures multiset(s[..at] + [x] + s[at..]) == multiset(s) + multiset{x}
  {
    assert s == s[..at] + s[at..];
  }

  /** The place of an older request in the sorted list is behind the third. */
  lemma FirstThreeAreNewer(a: seq<CertificateRequest>, s: seq<CertificateRequest>, x: CertificateRequest, i: nat,
                           j: nat, k: nat) returns (at: nat)
    requires multiset(s) == multiset(a) && Ordered(Newer, s)
    requires i < j < k < |a| && Newer(a[i], x) && Newer(a[j], x) && Newer(a[k], x)
    ensures 3 <= at <= |s|
    ensures Ordered(Newer, s[..at] + [x] + s[at..])
  {
    SameElements(a, s);
    at := 0;
    while at < |s| && Newer(s[at], x)
      invariant at <= |s|
      invariant forall m | 0 <= m < at :: Newer(s[m], x)
    {
      at := at + 1;
    }
    forall m | at <= m < |s| ensures !Newer(s[m], x) {
      assert m > at ==> !Newer(s[m], s[at]);
    }
    CountNewer(s, x, at);
    CountNewer3(a, x, i, j, k);
    CountPermutes(a, s, x);
  }

  function CountOfNewer(s: seq<CertificateRequest>, x: CertificateRequest): nat {
    if s == [] then 0 else (if Newer(s[0], x) then 1 else 0) + CountOfNewer(s[1..], x)
  }

  lemma {:induction false} CountNewer(s: seq<CertificateRequest>, x: CertificateRequest, at: nat)
    requires at <= |s| && forall m | at <= m < |s| :: !Newer(s[m], x)
    ensures CountOfNewer(s, x) <= at
  {
    if s != [] {
      CountNewer(s[1..], x, if at > 0 then at - 1 else 0);
    }
  }

  lemma {:induction false} CountConcat(a: seq<CertificateRequest>, b: seq<CertificateRequest>, x: CertificateRequest)
    ensures CountOfNewer(a + b, x) == CountOfNewer(a, x) + CountOfNewer(b, x)
  {
    if a == [] {
      assert a + b == b;
    } else {
      assert (a + b)[1..] == a[1..] + b;
      CountConcat(a[1..], b, x);
    }
  }

  lemma CountNewer3(a: seq<CertificateRequest>, x: CertificateRequest, i: nat, j: nat, k: nat)
    requires i < j < k < |a| && Newer(a[i], x) && Newer(a[j], x) && Newer(a[k], x)
    ensures CountOfNewer(a, x) >= 3
  {
    assert a == a[..j] + a[j..];
    assert a[..j] == a[..i] + a[i..j];
    assert a[j..] == a[j..k] + a[k..];
    CountConcat(a[..j], a[j..], x);
    CountConcat(a[..i], a[i..j], x);
    CountConcat(a[j..k], a[k..], x);
  }

  lemma {:induction false} CountPermutes(a: seq<CertificateRequest>, s: seq<CertificateRequest>, x: CertificateRequest)
    requires multiset(a) == multiset(s)
    ensures CountOfNewer(a, x) == CountOfNewer(s, x)
  {
    SameElements(a, s);
    if a != [] {
      assert a[0] in s;
      var k :| 0 <= k < |s| && s[k] == a[0];
      var rest := s[..k] + s[k + 1..];
      assert multiset(a[1..]) == multiset(rest) by {
        TailElements(a);
        WithoutOne(s, k);
      }
      CountAround(s, k, x);
      CountPermutes(a[1..], rest, x);
    }
  }

  lemma CountAround(s: seq<CertificateRequest>, k: nat, x: CertificateRequest)
    requires k < |s|
    ensures CountOfNewer(s, x) == CountOfNewer(s[..k] + s[k + 1..], x) + if Newer(s[k], x) then 1 else 0
  {
    assert s == s[..k] + s[k..] && s[k..][1..] == s[k + 1..];
    CountConcat(s[..k], s[k..], x);
    CountConcat(s[..k], s[k + 1..], x);
  }
}
