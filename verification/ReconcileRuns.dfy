/** What holds of every reconcile and of every run of reconciles in a changing cluster. */
module ReconcileRuns {
  import opened Wrappers
  import opened Sorting
  import opened Core
  import opened Selectors
  import opened ConventionTypes
  import opened Images
  import opened Conventions
  import opened Pipeline
  import opened CABundle
  import opened Admission
  import opened Reconciler

  // ----- one reconcile -----

  function StatusOf(c: Option<Condition>): Option<Status> {
    if c.Some? then Some(c.value.status) else None
  }

  /** The run of webhooks that a reconcile with registry access starts for its plan. */
  function JobOf(pre: Intent, cluster: Cluster, plan: seq<Convention>): Job {
    Job(cluster.world, RegistryConfig(true, cluster.names), pre.name, plan)
  }

  predicate Succeeded(intent: Intent) {
    StatusOf(intent.conventionsApplied) == Some(True)
  }

  /** The outcome of a reconcile: without a Go error it is True or False and never Unknown, Ready
      always agrees, and the status template changes on success only. */
  lemma OutcomeIsDefinite(pre: Intent, cluster: Cluster, r: Report, post: Intent)
    requires Step(pre, cluster, r, post)
    ensures StatusOf(post.ready) == StatusOf(post.conventionsApplied)
    ensures !r.goError ==> StatusOf(post.conventionsApplied) in {Some(True), Some(False)}
    ensures r.goError ==> !Succeeded(post)
    ensures !Succeeded(post) ==> post.statusTemplate == pre.statusTemplate
    ensures Succeeded(post) ==> post.statusTemplate.Some?
  {
  }

  /** The intent's account, or the one named default, exists in its namespace, and has a keychain there. */
  predicate HasRegistryAccess(cluster: Cluster, intent: Intent) {
    var account := if intent.serviceAccountName != "" then intent.serviceAccountName else "default";
    && cluster.keychain(intent.namespace, account, intent.imagePullSecrets)
    && cluster.serviceAccount(intent.namespace, account)
  }

  /** Which condition a reconcile ends with, and why: in this order, something could not be listed or
      there is no client, the registry access or an authority is missing, a selector is invalid, a webhook
      or a resolution failed, or all went well. */
  lemma StepReasons(pre: Intent, cluster: Cluster, r: Report, post: Intent)
    requires Step(pre, cluster, r, post)
    ensures r.goError <==> cluster.sources.None? || !cluster.hasClient
    ensures r.goError ==> post.ready == Some(
      if CAFailed(cluster) then Condition(False, "CABundleResolutionFailed") else Condition(Unknown, "Initializing"))
    ensures !r.goError && !HasRegistryAccess(cluster, pre) ==>
      post.ready == Some(Condition(False, "ImageResolutionFailed"))
    ensures !r.goError && HasRegistryAccess(cluster, pre) && CAFailed(cluster) ==>
      post.ready == Some(Condition(False, "CABundleResolutionFailed"))
    ensures !r.goError && HasRegistryAccess(cluster, pre) && !CAFailed(cluster) ==>
      r.resolved.Some? &&
      (r.plan.None? <==> exists i :: 0 <= i < |r.resolved.value| && Broken(r.resolved.value[i], CollectedLabels(pre)))
    ensures !r.goError && HasRegistryAccess(cluster, pre) && !CAFailed(cluster) ==>
      post.ready == Some(
        if r.plan.None? then Condition(False, "LabelSelector")
        else if |r.calls| < |r.plan.value| || !AllAnswered(r.calls) then Condition(False, "ConventionsApplied")
        else Condition(True, "ConventionsApplied"))
    ensures post.conventionsApplied == if Succeeded(post) then Some(Condition(True, "Applied")) else post.ready
  {
    CallsFollowThePlan(pre, cluster, r, post);
  }

  /** The calls of a reconcile: none without authorities and registry access; otherwise a prefix
      of the plan, the whole plan, all of it answered, exactly when the outcome is True; and a
      requeue is requested exactly when there was a plan and it failed. */
  lemma CallsFollowThePlan(pre: Intent, cluster: Cluster, r: Report, post: Intent)
    requires Step(pre, cluster, r, post)
    ensures CAFailed(cluster) || !Authenticates(cluster, pre) ==> r.calls == []
    ensures r.plan.None? ==> r.calls == [] && !Succeeded(post)
    ensures r.plan.Some? ==>
      var plan := r.plan.value;
      && |r.calls| <= |plan|
      && (forall j | 0 <= j < |r.calls| :: r.calls[j].convention == plan[j])
      && (Succeeded(post) <==> |r.calls| == |plan| && AllAnswered(r.calls))
    ensures r.requeue <==> r.plan.Some? && !Succeeded(post)
  {
    if r.plan.Some? {
      var job := JobOf(pre, cluster, r.plan.value);
      CallsArePrefix(job, 0, pre.template, ReadReceipt(pre.template.annotations));
      var o := ApplyConventions(job, pre.template);
      assert IsTrace(job, 0, o);
      forall j | 0 <= j < |r.calls| ensures r.calls[j].convention == r.plan.value[j] {
        assert IsCall(job, 0 + j, o.calls[j]);
      }
    }
  }

  /** What a reconcile asks the webhooks: each request is made for the spec's template, as changed by the
      responses before it, with the digests the registry serves at that moment. */
  lemma RequestsOfReconcile(pre: Intent, cluster: Cluster, r: Report, post: Intent, j: nat)
    returns (before: PodTemplate)
    requires Step(pre, cluster, r, post) && j < |r.calls|
    ensures r.plan.Some? && j < |r.plan.value|
    ensures r.calls[j].request.name == pre.name + "-" + r.plan.value[j].name
    ensures IsRequest(JobOf(pre, cluster, r.plan.value), j, before, r.calls[j].request)
    ensures Follows(pre.template, ReadReceipt(pre.template.annotations), r.calls, j, before)
  {
    before := RequestFollowsResponse(JobOf(pre, cluster, r.plan.value), pre.template, j);
  }

  /** What a reconcile leaves in the status: on success the last response, with the receipt of all names; a
      requeue means that a webhook did not answer, or that an image cannot be parsed or is not served. */
  lemma ResultOfReconcile(pre: Intent, cluster: Cluster, r: Report, post: Intent) returns (last: PodTemplate)
    requires Step(pre, cluster, r, post) && r.plan.Some? && AllAnswered(r.calls)
    ensures Follows(pre.template, ReadReceipt(pre.template.annotations), r.calls, |r.calls|, last)
    ensures Succeeded(post) ==> post.statusTemplate == Some(last) && |r.calls| == |r.plan.value|
    ensures !Succeeded(post) ==> |r.calls| < |r.plan.value| && exists c ::
      && (c in last.initContainers || c in last.containers) && c.image != ""
      && !exists reference ::
           RefersTo(cluster.names, c.image, reference) && cluster.world.registry(|r.calls|)(reference).Some?
  {
    var job := JobOf(pre, cluster, r.plan.value);
    if Succeeded(post) {
      ResultFollows(job, pre.template);
      last := post.statusTemplate.value;
    } else {
      last := FailureMeans(job, pre.template);
    }
  }

  /** Every call is the turn of a convention of the cluster that the filter selected. */
  lemma CalledConventionsAreSelected(pre: Intent, cluster: Cluster, r: Report, post: Intent, j: nat)
    requires Step(pre, cluster, r, post) && j < |r.calls|
    ensures r.resolved.Some? && r.calls[j].convention in r.resolved.value
    ensures Selected(r.calls[j].convention, CollectedLabels(pre))
  {
    CallsFollowThePlan(pre, cluster, r, post);
    var selection := Selection(r.resolved.value, CollectedLabels(pre));
    SameElements(selection, r.plan.value);
    assert r.plan.value[j] in selection;
    SelectionMembers(r.resolved.value, CollectedLabels(pre), r.calls[j].convention);
  }

  /** For legal priorities and distinct names the plan does not depend on the order in which
      the conventions were listed. */
  lemma PlanIsOrderFree(a: seq<Convention>, b: seq<Convention>, collected: map<string, Labels>, planA: seq<Convention>,
                        planB: seq<Convention>)
    requires multiset(a) == multiset(b)
    requires forall c | c in a :: LegalPriority(c)
    requires NamesDiffer(a)
    requires SortedCopy(Before, Selection(a, collected), planA) && SortedCopy(Before, Selection(b, collected), planB)
    ensures planA == planB && InBlocks(planA)
  {
    SelectionPermutes(a, b, collected);
    SelectionLegal(a, collected);
    SelectionNamesDistinct(a, collected);
    SortIsCanonicalByPriority(Selection(a, collected), Selection(b, collected), planA, planB);
  }

  lemma SelectionPermutes(a: seq<Convention>, b: seq<Convention>, collected: map<string, Labels>)
    requires multiset(a) == multiset(b)
    ensures multiset(Selection(a, collected)) == multiset(Selection(b, collected))
  {
    forall c ensures multiset(Selection(a, collected))[c] == multiset(Selection(b, collected))[c] {
      SelectionMembers(a, collected, c);
      SelectionMembers(b, collected, c);
    }
  }

  lemma SelectionLegal(a: seq<Convention>, collected: map<string, Labels>)
    requires forall c | c in a :: LegalPriority(c)
    ensures forall c | c in Selection(a, collected) :: LegalPriority(c)
  {
    forall c | c in Selection(a, collected) ensures LegalPriority(c) {
      SelectionMembers(a, collected, c);
    }
  }

  lemma {:induction false} SelectionNamesDistinct(a: seq<Convention>, collected: map<string, Labels>)
    requires NamesDiffer(a)
    ensures NamesDiffer(Selection(a, collected))
  {
    if a != [] {
      var n := |a| - 1;
      var before := Selection(a[..n], collected);
      SelectionNamesDistinct(a[..n], collected);
      forall i | 0 <= i < |before| ensures before[i].name != a[n].name {
        SelectionMembers(a[..n], collected, before[i]);
        assert before[i] in a[..n];
      }
      NewName(before, a[n]);
    }
  }

  lemma NewName(a: seq<Convention>, c: Convention)
    requires NamesDiffer(a) && forall i | 0 <= i < |a| :: a[i].name != c.name
    ensures NamesDiffer(a + [c])
  {
  }

  // ----- admitted conventions, in whatever order they are listed -----

  predicate Admitted(sources: seq<Source>, checks: Checks) {
    forall s | s in sources :: Acceptable(Defaulted(s.spec), checks)
  }

  lemma ResolvedIsAdmitted(cluster: Cluster, sources: seq<Source>, cs: seq<Convention>, checks: Checks,
                           collected: map<string, Labels>)
    requires AreResolved(cluster, sources, cs) && Admitted(sources, checks)
    ensures forall c | c in cs :: LegalPriority(c)
    ensures forall i | 0 <= i < |cs| :: !Broken(cs[i], collected)
  {
    forall i | 0 <= i < |cs| ensures FromAdmitted(cs[i], checks) {
      assert sources[i] in sources && IsResolved(cluster, sources[i], cs[i]);
    }
    forall i | 0 <= i < |cs| ensures LegalPriority(cs[i]) && !Broken(cs[i], collected) {
      AdmittedConvention(cs[i], checks, collected);
    }
  }

  /** Where all conventions were admitted, no reconcile fails for a selector: once authorities and
      registry access are found there is a plan. */
  lemma AdmittedNeverBreak(pre: Intent, cluster: Cluster, r: Report, post: Intent, checks: Checks)
    requires Step(pre, cluster, r, post) && cluster.sources.Some? && Admitted(cluster.sources.value, checks)
    ensures post.ready.Some? && post.ready.value.reason != "LabelSelector"
    ensures r.plan.Some? <==> cluster.hasClient && !CAFailed(cluster) && Authenticates(cluster, pre)
  {
    assert |"LabelSelector"| == 13 && |"CABundleResolutionFailed"| == 24 && |"ImageResolutionFailed"| == 21;
    assert |"Initializing"| == 12 && |"ConventionsApplied"| == 18;
    if r.resolved.Some? && WasApplied(pre, cluster, r, post) {
      ResolvedIsAdmitted(cluster, cluster.sources.value, r.resolved.value, checks, CollectedLabels(pre));
    }
  }

  /** Two clusters that list the same conventions and certificate requests, each in its own order. */
  ghost predicate SameUpToOrder(a: Cluster, b: Cluster) {
    && a.hasClient == b.hasClient && a.keychain == b.keychain && a.serviceAccount == b.serviceAccount
    && a.names == b.names && a.world == b.world
    && SameElementsOf(a.sources, b.sources)
    && forall namespace :: SameElementsOf(a.certificateRequests(namespace), b.certificateRequests(namespace))
  }

  ghost predicate SameElementsOf<T>(a: Option<seq<T>>, b: Option<seq<T>>) {
    if a.Some? && b.Some? then multiset(a.value) == multiset(b.value) else a.None? && b.None?
  }

  /** The eligible requests for the source's certificate, if it asks for one, differ in age. */
  ghost predicate TimesDiffer(cluster: Cluster, s: Source) {
    s.spec.webhook.Some? && s.spec.webhook.value.certificate.Some? ==>
      DistinctTimes(Requests(cluster, s.spec.webhook.value.certificate.value))
  }

  lemma RequestsPermuted(a: Cluster, b: Cluster, c: CertificateRef)
    requires SameElementsOf(a.certificateRequests(c.namespace), b.certificateRequests(c.namespace))
    ensures multiset(Requests(a, c)) == multiset(Requests(b, c))
    ensures Requests(a, c) == [] <==> Requests(b, c) == []
  {
    if a.certificateRequests(c.namespace).Some? {
      EligiblesPermuted(a.certificateRequests(c.namespace).value, b.certificateRequests(c.namespace).value, c.name);
    }
    SameElements(Requests(a, c), Requests(b, c));
  }

  /** A source resolves to the same convention in both clusters. */
  lemma ResolvedAlike(a: Cluster, b: Cluster, s: Source, c: Convention, d: Convention)
    requires SameUpToOrder(a, b) && TimesDiffer(a, s) && IsResolved(a, s, c) && IsResolved(b, s, d)
    ensures c == d
  {
    if s.spec.webhook.Some? && s.spec.webhook.value.certificate.Some? {
      var certificate := s.spec.webhook.value.certificate.value;
      RequestsPermuted(a, b, certificate);
      BundleIsUnique(Requests(a, certificate), Requests(b, certificate),
                     c.clientConfig.caBundle, d.clientConfig.caBundle);
    }
  }

  lemma LacksAlike(a: Cluster, b: Cluster)
    requires SameUpToOrder(a, b)
    ensures CAFailed(a) <==> CAFailed(b)
  {
    if a.sources.Some? {
      SameElements(a.sources.value, b.sources.value);
      forall s | s in a.sources.value ensures LacksAuthority(a, s) <==> LacksAuthority(b, s) {
        if s.spec.webhook.Some? && s.spec.webhook.value.certificate.Some? {
          RequestsPermuted(a, b, s.spec.webhook.value.certificate.value);
        }
      }
    }
  }

  /** The resolved lists of permuted sources are permutations of each other. */
  lemma {:induction false} ResolvedPermute(a: Cluster, b: Cluster, sa: seq<Source>, sb: seq<Source>,
                                           ca: seq<Convention>, cb: seq<Convention>)
    requires SameUpToOrder(a, b) && multiset(sa) == multiset(sb)
    requires AreResolved(a, sa, ca) && AreResolved(b, sb, cb)
    requires forall s | s in sa :: TimesDiffer(a, s)
    ensures multiset(ca) == multiset(cb)
  {
    SameElements(sa, sb);
    if sa != [] {
      var n := |sa| - 1;
      assert sa[n] in sa && sa[n] in sb;
      var k :| 0 <= k < |sb| && sb[k] == sa[n];
      assert ca[n] == cb[k] by {
        ResolvedAlike(a, b, sa[n], ca[n], cb[k]);
      }
      WithoutPair(sa, sb, n, k);
      assert AreResolved(a, sa[..n], ca[..n]);
      WithoutResolved(b, sb, cb, k);
      ResolvedPermute(a, b, sa[..n], sb[..k] + sb[k + 1..], ca[..n], cb[..k] + cb[k + 1..]);
      PutBack(ca, cb, n, k);
    }
  }

  lemma WithoutPair<T>(a: seq<T>, b: seq<T>, n: nat, k: nat)
    requires multiset(a) == multiset(b) && n == |a| - 1 && k < |b| && a[n] == b[k]
    ensures multiset(a[..n]) == multiset(b[..k] + b[k + 1..])
    ensures forall x | x in a[..n] :: x in a
  {
    WithoutOne(b, k);
    assert a == a[..n] + [a[n]];
  }

  lemma WithoutResolved(cluster: Cluster, sources: seq<Source>, cs: seq<Convention>, k: nat)
    requires AreResolved(cluster, sources, cs) && k < |sources|
    ensures AreResolved(cluster, sources[..k] + sources[k + 1..], cs[..k] + cs[k + 1..])
  {
    var fewer, ds := sources[..k] + sources[k + 1..], cs[..k] + cs[k + 1..];
    forall i | 0 <= i < |fewer| ensures IsResolved(cluster, fewer[i], ds[i]) {
      var n := if i < k then i else i + 1;
      assert fewer[i] == sources[n] && ds[i] == cs[n];
    }
  }

  lemma PutBack<T>(a: seq<T>, b: seq<T>, n: nat, k: nat)
    requires n == |a| - 1 && k < |b| && a[n] == b[k]
    requires multiset(a[..n]) == multiset(b[..k] + b[k + 1..])
    ensures multiset(a) == multiset(b)
  {
    assert a == a[..n] + [a[n]];
    assert b == b[..k] + [b[k]] + b[k + 1..];
  }

  predicate SourcesDiffer(sources: seq<Source>) {
    forall i, j | 0 <= i < j < |sources| :: sources[i].name != sources[j].name
  }

  /** Two reconciles of the same intent, over clusters that list the same admitted conventions and
      the same certificate requests in different orders, call the same webhooks in the same order
      and leave the same status. */
  lemma StatusIsOrderFree(pre: Intent, a: Cluster, b: Cluster, checks: Checks, r: Report, q: Report, postA: Intent,
                          postB: Intent)
    requires SameUpToOrder(a, b) && Step(pre, a, r, postA) && Step(pre, b, q, postB)
    requires a.sources.Some? ==>
      && Admitted(a.sources.value, checks) && SourcesDiffer(a.sources.value)
      && forall s | s in a.sources.value :: TimesDiffer(a, s)
    ensures q.goError == r.goError && q.requeue == r.requeue && q.plan == r.plan && q.calls == r.calls
    ensures postB.conventionsApplied == postA.conventionsApplied && postB.ready == postA.ready
    ensures postB.statusTemplate == postA.statusTemplate
  {
    LacksAlike(a, b);
    if WasApplied(pre, a, r, postA) && WasApplied(pre, b, q, postB) {
      SamePlan(pre, a, b, checks, r.resolved.value, q.resolved.value);
      AppliedAlike(pre, a, r, postA, q, postB);
    }
  }

  /** One plan only, for both resolved lists. */
  lemma SamePlan(pre: Intent, a: Cluster, b: Cluster, checks: Checks, ca: seq<Convention>, cb: seq<Convention>)
    requires SameUpToOrder(a, b) && a.sources.Some?
    requires Admitted(a.sources.value, checks) && SourcesDiffer(a.sources.value)
    requires forall s | s in a.sources.value :: TimesDiffer(a, s)
    requires AreResolved(a, a.sources.value, ca) && AreResolved(b, b.sources.value, cb)
    ensures OnePlan(pre, ca, cb)
  {
    var sa, sb, collected := a.sources.value, b.sources.value, CollectedLabels(pre);
    SameElements(sa, sb);
    ResolvedPermute(a, b, sa, sb, ca, cb);
    ResolvedIsAdmitted(a, sa, ca, checks, collected);
    ResolvedIsAdmitted(b, sb, cb, checks, collected);
    forall i, j | 0 <= i < j < |ca| ensures ca[i].name != ca[j].name {
      assert IsResolved(a, sa[i], ca[i]) && IsResolved(a, sa[j], ca[j]);
    }
    forall planA, planB | IsPlan(ca, collected, planA) && IsPlan(cb, collected, planB)
      ensures planA == planB
    {
      PlanIsOrderFree(ca, cb, collected, planA, planB);
    }
  }

  ghost predicate OnePlan(pre: Intent, ca: seq<Convention>, cb: seq<Convention>) {
    var collected := CollectedLabels(pre);
    && (forall i | 0 <= i < |ca| :: !Broken(ca[i], collected))
    && (forall i | 0 <= i < |cb| :: !Broken(cb[i], collected))
    && forall planA, planB | IsPlan(ca, collected, planA) && IsPlan(cb, collected, planB) :: planA == planB
  }

  ghost predicate IsPlan(cs: seq<Convention>, collected: map<string, Labels>, plan: seq<Convention>) {
    SortedCopy(Before, Selection(cs, collected), plan)
  }

  lemma AppliedAlike(pre: Intent, cluster: Cluster, r: Report, postA: Intent, q: Report, postB: Intent)
    requires r.resolved.Some? && q.resolved.Some? && OnePlan(pre, r.resolved.value, q.resolved.value)
    requires AppliedIn(pre, cluster, r, postA) && AppliedIn(pre, cluster, q, postB)
    ensures q.plan == r.plan && q.calls == r.calls && q.requeue == r.requeue
    ensures postB.conventionsApplied == postA.conventionsApplied && postB.ready == postA.ready
    ensures postB.statusTemplate == postA.statusTemplate
  {
    var collected := CollectedLabels(pre);
    assert IsPlan(r.resolved.value, collected, r.plan.value) && IsPlan(q.resolved.value, collected, q.plan.value);
  }

  // ----- runs -----

  datatype Reconciled = Reconciled(pre: Intent, cluster: Cluster, report: Report, post: Intent)

  /** Reconciles of one intent in order. Between two of them the cluster, the spec and the
      metadata may change at will; only the status is carried over. */
  ghost predicate IsRun(run: seq<Reconciled>) {
    && (forall i | 0 <= i < |run| :: IsReconcile(run[i]))
    && (forall i | 0 < i < |run| :: Carries(run[i - 1].post, run[i].pre))
  }

  ghost predicate IsReconcile(s: Reconciled) {
    Step(s.pre, s.cluster, s.report, s.post)
  }

  lemma ReconcileKeepsGood(s: Reconciled)
    requires IsReconcile(s) && (Succeeded(s.post) || s.pre.statusTemplate.Some?)
    ensures s.post.statusTemplate.Some?
  {
    OutcomeIsDefinite(s.pre, s.cluster, s.report, s.post);
  }

  predicate Carries(a: Intent, b: Intent) {
    b.statusTemplate == a.statusTemplate && b.conventionsApplied == a.conventionsApplied && b.ready == a.ready
  }

  /** What the webhooks made of the template in a successful reconcile. */
  ghost function ResultOf(s: Reconciled): Option<PodTemplate> {
    if s.report.plan.None? then None
    else ApplyConventions(JobOf(s.pre, s.cluster, s.report.plan.value), s.pre.template).result
  }

  /** The result of the most recent successful reconcile, or the initial status template. */
  ghost function LastGood(run: seq<Reconciled>, initial: Option<PodTemplate>): Option<PodTemplate> {
    if run == [] then initial
    else
      var last := run[|run| - 1];
      if Succeeded(last.post) then ResultOf(last) else LastGood(run[..|run| - 1], initial)
  }

  /** Safety: after every reconcile of every run the status template is the last good one, and
      Ready has the status of ConventionsApplied. */
  lemma {:induction false} StatusIsLastGood(run: seq<Reconciled>)
    requires run != [] && IsRun(run)
    ensures var last := run[|run| - 1];
      && last.post.statusTemplate == LastGood(run, run[0].pre.statusTemplate)
      && StatusOf(last.post.ready) == StatusOf(last.post.conventionsApplied)
  {
    var n := |run| - 1;
    var last := run[n];
    OutcomeIsDefinite(last.pre, last.cluster, last.report, last.post);
    if n > 0 {
      PrefixIsRun(run, n);
      StatusIsLastGood(run[..n]);
      assert Carries(run[n - 1].post, last.pre);
    } else {
      assert run[..n] == [];
    }
  }

  lemma PrefixIsRun(run: seq<Reconciled>, n: nat)
    requires IsRun(run) && n <= |run|
    ensures IsRun(run[..n])
  {
    forall i | 0 < i < n ensures Carries(run[..n][i - 1].post, run[..n][i].pre) {
      assert Carries(run[i - 1].post, run[i].pre);
    }
  }

  /** Once there is a good template, no later reconcile of a run loses it. */
  lemma {:induction false} GoodTemplateStays(run: seq<Reconciled>, i: nat)
    requires IsRun(run) && i < |run| && Succeeded(run[i].post)
    ensures run[|run| - 1].post.statusTemplate.Some?
  {
    var n := |run| - 1;
    if i < n {
      PrefixIsRun(run, n);
      GoodTemplateStays(run[..n], i);
      assert Carries(run[n - 1].post, run[n].pre);
    }
    ReconcileKeepsGood(run[n]);
  }
}
