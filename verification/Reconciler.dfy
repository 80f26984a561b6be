/** One reconcile of a PodIntent: resolve the conventions, authenticate, apply, and record the
    outcome in the status. */
module Reconciler {
  import opened Wrappers
  import opened Sorting
  import opened Core
  import opened Selectors
  import opened ConventionTypes
  import opened Images
  import opened Conventions
  import opened Pipeline
  import opened ConventionLists
  import opened CABundle
  import opened Admission

  datatype Source = Source(name: string, spec: Spec)

  /** The cluster as one reconcile meets it. A list or a get that fails yields None or false: the
      keychain of a namespace, service account and pull secrets, and the service account itself. */
  datatype Cluster = Cluster(
    sources: Option<seq<Source>>,
    certificateRequests: string -> Option<seq<CertificateRequest>>,
    hasClient: bool,
    keychain: (string, string, seq<string>) -> bool,
    serviceAccount: (string, string) -> bool,
    names: NameLibrary,
    world: World)

  /** A PodIntent as a value. */
  datatype Intent = Intent(
    name: string,
    namespace: string,
    labels: Labels,
    template: PodTemplate,
    serviceAccountName: string,
    imagePullSecrets: seq<string>,
    conventionsApplied: Option<Condition>,
    ready: Option<Condition>,
    statusTemplate: Option<PodTemplate>)

  ghost function View(parent: PodIntent): Intent
    reads parent, parent.template, parent.template.initContainers, parent.template.containers
  {
    Intent(parent.name, parent.namespace, parent.labels, parent.template.View(),
           parent.serviceAccountName, parent.imagePullSecrets,
           parent.conventionsApplied, parent.ready, parent.statusTemplate)
  }

  // ----- the condition set: ConventionsApplied, and Ready derived from it -----

  method MarkFalse(parent: PodIntent, reason: string)
    modifies parent`conventionsApplied, parent`ready
    ensures parent.conventionsApplied == parent.ready == Some(Condition(False, reason))
  {
    parent.conventionsApplied := Some(Condition(False, reason));
    parent.ready := Some(Condition(False, reason));
  }

  method MarkTrue(parent: PodIntent, reason: string)
    modifies parent`conventionsApplied, parent`ready
    ensures parent.conventionsApplied == Some(Condition(True, reason))
    ensures parent.ready == Some(Condition(True, "ConventionsApplied"))
  {
    parent.conventionsApplied := Some(Condition(True, reason));
    parent.ready := Some(Condition(True, "ConventionsApplied"));
  }

  method InitializeConditions(parent: PodIntent)
    modifies parent`conventionsApplied, parent`ready
    ensures parent.conventionsApplied == parent.ready == Some(Condition(Unknown, "Initializing"))
  {
    parent.conventionsApplied := Some(Condition(Unknown, "Initializing"));
    parent.ready := Some(Condition(Unknown, "Initializing"));
  }

  // ----- resolving conventions -----

  class Stash {
    var conventions: Option<seq<Convention>>
    var registryConfig: Option<RegistryConfig>

    constructor ()
      ensures conventions.None? && registryConfig.None?
    {
      conventions, registryConfig := None, None;
    }
  }

  function Requests(cluster: Cluster, c: CertificateRef): seq<CertificateRequest> {
    var listed := cluster.certificateRequests(c.namespace);
    if listed.Some? then Eligibles(listed.value, c.name) else []
  }

  /** The source asks for a certificate, and no eligible request for it exists. */
  predicate LacksAuthority(cluster: Cluster, s: Source) {
    s.spec.webhook.Some? && s.spec.webhook.value.certificate.Some?
    && Requests(cluster, s.spec.webhook.value.certificate.value) == []
  }

  /** The authorities of some source are missing. */
  ghost predicate CAFailed(cluster: Cluster) {
    cluster.sources.Some? && exists s :: s in cluster.sources.value && LacksAuthority(cluster, s)
  }

  /** The convention made from a source: defaulted, with its authorities, and without its
      selector target. */
  ghost predicate IsResolved(cluster: Cluster, s: Source, c: Convention) {
    && c.name == s.name
    && c.selectorTarget == ""
    && c.selectors == s.spec.selectors
    && c.priority == Defaulted(s.spec).priority
    && HasClient(cluster, Defaulted(s.spec).webhook, c.clientConfig)
  }

  ghost predicate HasClient(cluster: Cluster, w: Option<Webhook>, c: ClientConfig) {
    if w.None? then c == NO_CLIENT
    else if w.value.certificate.None? then c == w.value.clientConfig
    else
      && c == w.value.clientConfig.(caBundle := c.caBundle)
      && IsBundle(Requests(cluster, w.value.certificate.value), c.caBundle)
  }

  ghost predicate AreResolved(cluster: Cluster, sources: seq<Source>, cs: seq<Convention>) {
    |cs| == |sources| && forall i | 0 <= i < |sources| :: IsResolved(cluster, sources[i], cs[i])
  }

  /** A source lacks authorities when it names a certificate, and the list of its namespace fails or holds
      no eligible request for it. */
  lemma LacksMeans(cluster: Cluster, s: Source)
    ensures LacksAuthority(cluster, s) <==>
      && s.spec.webhook.Some? && s.spec.webhook.value.certificate.Some?
      && var c := s.spec.webhook.value.certificate.value;
         var listed := cluster.certificateRequests(c.namespace);
         listed.Some? ==> forall r | r in listed.value :: !Eligible(r, c.name)
  {
    if s.spec.webhook.Some? && s.spec.webhook.value.certificate.Some? {
      var c := s.spec.webhook.value.certificate.value;
      var listed := cluster.certificateRequests(c.namespace);
      if listed.Some? {
        EligiblesMembers(listed.value, c.name);
        if Requests(cluster, c) != [] {
          assert Requests(cluster, c)[0] in Requests(cluster, c);
        }
      }
    }
  }

  /** The convention of a source has its name and selectors and no target, its priority or Normal, and the
      address of its webhook, with port 443 for a service without one. */
  lemma ResolvedMeans(cluster: Cluster, s: Source, c: Convention)
    requires IsResolved(cluster, s, c)
    ensures c.name == s.name && c.selectors == s.spec.selectors && c.selectorTarget == ""
    ensures c.priority == if s.spec.priority == "" then "Normal" else s.spec.priority
    ensures s.spec.webhook.None? ==> c.clientConfig == ClientConfig(None, None, [])
    ensures s.spec.webhook.Some? ==>
      var given, service := s.spec.webhook.value.clientConfig, s.spec.webhook.value.clientConfig.service;
      && c.clientConfig.url == given.url
      && (service.None? ==> c.clientConfig.service.None?)
      && (service.Some? && service.value.port.Some? ==> c.clientConfig.service == service)
      && (service.Some? && service.value.port.None? ==>
            c.clientConfig.service == Some(service.value.(port := Some(443))))
      && (s.spec.webhook.value.certificate.None? ==> c.clientConfig.caBundle == given.caBundle)
      && (s.spec.webhook.value.certificate.Some? ==>
            IsBundle(Requests(cluster, s.spec.webhook.value.certificate.value), c.clientConfig.caBundle))
  {
    DefaultsMean(s.spec);
  }

  method ResolveConventions(parent: PodIntent, cluster: Cluster, stash: Stash) returns (goError: bool)
    modifies parent`conventionsApplied, parent`ready, stash`conventions
    ensures goError <==> cluster.sources.None?
    ensures var failed := CAFailed(cluster);
      && (failed ==> parent.conventionsApplied == parent.ready == Some(Condition(False, "CABundleResolutionFailed")))
      && (!failed ==> parent.conventionsApplied == old(parent.conventionsApplied) && parent.ready == old(parent.ready))
      && (failed || goError ==> stash.conventions == old(stash.conventions))
      && (!failed && !goError ==>
            stash.conventions.Some? && AreResolved(cluster, cluster.sources.value, stash.conventions.value))
  {
    if cluster.sources.None? {
      return true;
    }
    var sources := cluster.sources.value;
    var conventions: seq<Convention> := [];
    for i := 0 to |sources|
      invariant forall j | 0 <= j < i :: !LacksAuthority(cluster, sources[j])
      invariant AreResolved(cluster, sources[..i], conventions)
      invariant unchanged(parent) && unchanged(stash)
    {
      var convention := ResolveConvention(cluster, sources[i]);
      if convention.None? {
        MarkFalse(parent, "CABundleResolutionFailed");
        assert sources[i] in sources;
        return false;
      }
      conventions := conventions + [convention.value];
    }
    assert sources[..|sources|] == sources;
    stash.conventions := Some(conventions);
    return false;
  }

  method ResolveConvention(cluster: Cluster, item: Source) returns (r: Option<Convention>)
    ensures r.None? <==> LacksAuthority(cluster, item)
    ensures r.Some? ==> IsResolved(cluster, item, r.value)
  {
    var source := new ClusterPodConventionSpec.DeepCopy(item.spec);
    source.Default();
    var convention := Convention(item.name, "", source.selectors, source.priority, NO_CLIENT);
    if source.webhook.Some? {
      var clientConfig := source.webhook.value.clientConfig;
      if source.webhook.value.certificate.Some? {
        var certificate := source.webhook.value.certificate.value;
        var listed := cluster.certificateRequests(certificate.namespace);
        var caBundle := GetCABundle(listed, certificate);
        if caBundle.None? {
          return None;
        }
        clientConfig := clientConfig.(caBundle := caBundle.value);
      }
      convention := convention.(clientConfig := clientConfig);
    }
    return Some(convention);
  }

  // ----- registry access -----

  function ServiceAccountName(name: string): string {
    if name == "" then "default" else name
  }

  predicate HasAccess(cluster: Cluster, namespace: string, serviceAccountName: string, pullSecrets: seq<string>) {
    && cluster.keychain(namespace, serviceAccountName, pullSecrets)
    && cluster.serviceAccount(namespace, serviceAccountName)
  }

  /** A keychain can be made for the intent, and its service account exists. */
  predicate Authenticates(cluster: Cluster, intent: Intent) {
    HasAccess(cluster, intent.namespace, ServiceAccountName(intent.serviceAccountName), intent.imagePullSecrets)
  }

  method BuildRegistryConfig(parent: PodIntent, cluster: Cluster, stash: Stash) returns (goError: bool)
    modifies parent`conventionsApplied, parent`ready, parent`serviceAccountName, stash`registryConfig
    ensures goError <==> !cluster.hasClient
    ensures parent.serviceAccountName
         == var given := old(parent.serviceAccountName); if goError then given else ServiceAccountName(given)
    ensures var ok := Authenticates(cluster, old(View(parent)));
      && (!goError && !ok ==>
            parent.conventionsApplied == parent.ready == Some(Condition(False, "ImageResolutionFailed")))
      && (goError || ok ==>
            parent.conventionsApplied == old(parent.conventionsApplied) && parent.ready == old(parent.ready))
      && stash.registryConfig
         == if !goError && ok then Some(RegistryConfig(true, cluster.names)) else old(stash.registryConfig)
  {
    if !cluster.hasClient {
      return true;
    }
    if parent.serviceAccountName == "" {
      parent.serviceAccountName := "default";
    }
    if !cluster.keychain(parent.namespace, parent.serviceAccountName, parent.imagePullSecrets) {
      MarkFalse(parent, "ImageResolutionFailed");
      return false;
    }
    if !cluster.serviceAccount(parent.namespace, parent.serviceAccountName) {
      MarkFalse(parent, "ImageResolutionFailed");
      return false;
    }
    stash.registryConfig := Some(RegistryConfig(true, cluster.names));
    return false;
  }

  // ----- applying -----

  /** What can be observed of a reconcile. `resolved` and `plan` are the conventions that were
      resolved, and those that were then filtered and sorted, when it got that far. */
  datatype Report = Report(
    goError: bool,
    requeue: bool,
    resolved: Option<seq<Convention>>,
    plan: Option<seq<Convention>>,
    calls: seq<Call>)

  function CollectedLabels(intent: Intent): map<string, Labels> {
    map[POD_INTENT_LABELS := intent.labels, POD_TEMPLATE_SPEC_LABELS := intent.template.labels]
  }

  /** The status an Apply step leaves, given the conventions and the registry access it found. */
  ghost predicate Applied(pre: Intent, cs: seq<Convention>, rc: RegistryConfig, world: World,
                          requeue: bool, plan: Option<seq<Convention>>, calls: seq<Call>, post: Intent) {
    var collected := CollectedLabels(pre);
    if exists i :: 0 <= i < |cs| && Broken(cs[i], collected) then
      && plan.None? && calls == [] && !requeue
      && post.conventionsApplied == post.ready == Some(Condition(False, "LabelSelector"))
      && post.statusTemplate == pre.statusTemplate
    else
      && plan.Some? && SortedCopy(Before, Selection(cs, collected), plan.value)
      && AppliedPlan(pre, plan.value, rc, world, requeue, calls, post)
  }

  /** The webhooks of the plan were called; success alone updates the status template. */
  ghost predicate AppliedPlan(pre: Intent, plan: seq<Convention>, rc: RegistryConfig, world: World,
                              requeue: bool, calls: seq<Call>, post: Intent) {
    var o := ApplyConventions(Job(world, rc, pre.name, plan), pre.template);
    && calls == o.calls
    && requeue == o.result.None?
    && if o.result.None? then
         post.conventionsApplied == post.ready == Some(Condition(False, "ConventionsApplied"))
         && post.statusTemplate == pre.statusTemplate
       else
         post.conventionsApplied == Some(Condition(True, "Applied"))
         && post.ready == Some(Condition(True, "ConventionsApplied"))
         && post.statusTemplate == o.result
  }

  /** The targets that a convention can name: the labels of the intent and those of its template. */
  lemma TargetsMean(intent: Intent, c: Convention)
    ensures c.selectorTarget == "PodIntent" ==> TargetLabels(c, CollectedLabels(intent)) == intent.labels
    ensures c.selectorTarget == "PodTemplateSpec" ==>
      TargetLabels(c, CollectedLabels(intent)) == intent.template.labels
    ensures c.selectorTarget !in ["PodIntent", "PodTemplateSpec"] ==>
      TargetLabels(c, CollectedLabels(intent)) == map[]
  {
    assert |"PodIntent"| == 9 && |"PodTemplateSpec"| == 15;
  }

  predicate IsFalse(c: Option<Condition>) {
    c.Some? && c.value.status == False
  }

  function Stashed<T>(value: Option<T>, absent: T): T {
    if value.Some? then value.value else absent
  }

  method ApplyConventionsReconciler(parent: PodIntent, world: World, names: NameLibrary, stash: Stash)
    returns (requeue: bool, plan: Option<seq<Convention>>, calls: seq<Call>)
    requires parent.template.Valid()
    modifies parent`conventionsApplied, parent`ready, parent`statusTemplate
    modifies parent.template.initContainers, parent.template.containers
    ensures var pre := old(View(parent));
      if pre.conventionsApplied.None? || IsFalse(pre.conventionsApplied) then
        !requeue && plan.None? && calls == [] && View(parent) == pre
      else
        Applied(pre, Stashed(stash.conventions, []), Stashed(stash.registryConfig, RegistryConfig(false, names)), world,
                requeue, plan, calls, View(parent))
  {
    requeue, plan, calls := false, None, [];
    if parent.conventionsApplied.None? || IsFalse(parent.conventionsApplied) {
      return;
    }
    var sources := new ConventionList(Stashed(stash.conventions, []));
    var collectedLabels := map[POD_INTENT_LABELS := parent.labels, POD_TEMPLATE_SPEC_LABELS := parent.template.labels];
    var filteredAndSorted := sources.FilterAndSort(collectedLabels);
    if filteredAndSorted.None? {
      MarkFalse(parent, "LabelSelector");
      return;
    }
    plan := Some(filteredAndSorted.value.items);
    var rc := Stashed(stash.registryConfig, RegistryConfig(false, names));
    requeue, calls := ApplyPlan(parent, filteredAndSorted.value, world, rc);
  }

  method ApplyPlan(parent: PodIntent, conventions: ConventionList, world: World, rc: RegistryConfig)
    returns (requeue: bool, calls: seq<Call>)
    requires parent.template.Valid()
    modifies parent`conventionsApplied, parent`ready, parent`statusTemplate
    modifies parent.template.initContainers, parent.template.containers
    ensures AppliedPlan(old(View(parent)), old(conventions.items), rc, world, requeue, calls, View(parent))
  {
    var updatedWorkload: Option<PodTemplateSpec>;
    updatedWorkload, calls := conventions.Apply(parent, world, rc);
    if updatedWorkload.None? {
      MarkFalse(parent, "ConventionsApplied");
      return true, calls;
    }
    var template := updatedWorkload.value;
    parent.statusTemplate := Some(template.View());
    MarkTrue(parent, "Applied");
    return false, calls;
  }

  // ----- one reconcile -----

  /** A Go error stops the sequence before anything is applied. */
  ghost predicate Stopped(pre: Intent, cluster: Cluster, r: Report, post: Intent) {
    && (cluster.sources.None? || !cluster.hasClient)
    && r.goError && Silent(r) && post.statusTemplate == pre.statusTemplate
    && post.conventionsApplied == post.ready
    && post.ready == Some(if CAFailed(cluster) then Condition(False, "CABundleResolutionFailed")
                          else Condition(Unknown, "Initializing"))
  }

  /** An authority or the registry access is missing: the condition is False and nothing is applied. */
  ghost predicate Failed(pre: Intent, cluster: Cluster, r: Report, post: Intent) {
    && cluster.sources.Some? && cluster.hasClient
    && (CAFailed(cluster) || !Authenticates(cluster, pre))
    && !r.goError && Silent(r) && post.statusTemplate == pre.statusTemplate
    && post.conventionsApplied == post.ready
    && post.ready == Some(Condition(False, if Authenticates(cluster, pre)
                                           then "CABundleResolutionFailed" else "ImageResolutionFailed"))
  }

  /** Everything was found, and the resolved conventions were applied. */
  ghost predicate WasApplied(pre: Intent, cluster: Cluster, r: Report, post: Intent) {
    && cluster.sources.Some? && cluster.hasClient
    && !CAFailed(cluster) && Authenticates(cluster, pre)
    && !r.goError && r.resolved.Some? && AreResolved(cluster, cluster.sources.value, r.resolved.value)
    && AppliedIn(pre, cluster, r, post)
  }

  ghost predicate AppliedIn(pre: Intent, cluster: Cluster, r: Report, post: Intent)
    requires r.resolved.Some?
  {
    Applied(pre, r.resolved.value, RegistryConfig(true, cluster.names), cluster.world,
            r.requeue, r.plan, r.calls, post)
  }

  /** The relation between the status before and after one reconcile, and what it reports. */
  ghost predicate Step(pre: Intent, cluster: Cluster, r: Report, post: Intent) {
    Stopped(pre, cluster, r, post) || Failed(pre, cluster, r, post) || WasApplied(pre, cluster, r, post)
  }

  /** Nothing was planned, called or requeued. */
  predicate Silent(r: Report) {
    r.plan.None? && r.calls == [] && !r.requeue
  }

  /** What an Apply step does depends on the name, labels, template and status template only. */
  lemma AppliedToSameInput(mid: Intent, pre: Intent, cs: seq<Convention>, rc: RegistryConfig, world: World,
                           requeue: bool, plan: Option<seq<Convention>>, calls: seq<Call>, post: Intent)
    requires Applied(mid, cs, rc, world, requeue, plan, calls, post)
    requires mid.name == pre.name && mid.labels == pre.labels
    requires mid.template == pre.template && mid.statusTemplate == pre.statusTemplate
    ensures Applied(pre, cs, rc, world, requeue, plan, calls, post)
  {
  }

  /** The sub-reconcilers before the last: conditions start Unknown, conventions and registry
      access are stashed, and what is missing makes the condition False. */
  method Prepare(parent: PodIntent, cluster: Cluster, stash: Stash) returns (goError: bool)
    requires stash.conventions.None?
    modifies parent`conventionsApplied, parent`ready, parent`serviceAccountName, stash
    ensures goError <==> cluster.sources.None? || !cluster.hasClient
    ensures parent.conventionsApplied == parent.ready
    ensures var ok := Authenticates(cluster, old(View(parent)));
      parent.ready == Some(
        if !goError && !ok then Condition(False, "ImageResolutionFailed")
        else if CAFailed(cluster) then Condition(False, "CABundleResolutionFailed")
        else Condition(Unknown, "Initializing"))
    ensures var ok := Authenticates(cluster, old(View(parent)));
      !goError && !CAFailed(cluster) && ok ==>
      && stash.conventions.Some? && AreResolved(cluster, cluster.sources.value, stash.conventions.value)
      && stash.registryConfig == Some(RegistryConfig(true, cluster.names))
  {
    InitializeConditions(parent);
    goError := ResolveConventions(parent, cluster, stash);
    if goError {
      return true;
    }
    goError := BuildRegistryConfig(parent, cluster, stash);
  }

  /** A reconcile works on a private copy with a fresh stash; its sub-reconcilers run in
      sequence until one returns a Go error. */
  method Reconcile(parent: PodIntent, cluster: Cluster) returns (r: Report)
    requires parent.template.Valid()
    modifies parent, parent.template.initContainers, parent.template.containers
    ensures Step(old(View(parent)), cluster, r, View(parent))
  {
    ghost var pre := View(parent);
    var stash := new Stash();
    var goError := Prepare(parent, cluster, stash);
    ghost var mid := View(parent);
    if goError {
      r := Report(true, false, stash.conventions, None, []);
      assert Stopped(pre, cluster, r, mid);
      return;
    }
    var requeue, plan, calls := ApplyConventionsReconciler(parent, cluster.world, cluster.names, stash);
    r := Report(false, requeue, stash.conventions, plan, calls);
    ghost var post := View(parent);
    if IsFalse(mid.conventionsApplied) {
      assert Failed(pre, cluster, r, post);
    } else {
      AppliedToSameInput(mid, pre, stash.conventions.value, stash.registryConfig.value, cluster.world,
                         requeue, plan, calls, post);
      assert WasApplied(pre, cluster, r, post);
    }
  }
}
