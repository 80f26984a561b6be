/** Admission of ClusterPodConventions: defaults first, then validation. */
module Admission {
  import opened Wrappers
  import opened Sorting
  import opened Selectors
  import opened ConventionTypes
  import opened Conventions

  datatype Spec = Spec(
    selectors: seq<LabelSelector>,
    selectorTarget: string,
    priority: string,
    webhook: Option<Webhook>)

  datatype FieldError =
    | InvalidSelector(index: nat)
    | InvalidPriority
    | WebhookRequired
    | GotBothTargets
    | GotNoTarget
    | InvalidURL
    | InvalidService
    | NamespaceRequired
    | NameRequired
    | InvalidSelectorTarget

  /** The URL and service checks of the API server library. */
  datatype Checks = Checks(url: string -> seq<FieldError>, service: (Service, int) -> seq<FieldError>)

  // ----- defaults -----

  function DefaultedWebhook(w: Webhook): Webhook {
    var service := w.clientConfig.service;
    if service.Some? && service.value.port.None?
    then w.(clientConfig := w.clientConfig.(service := Some(service.value.(port := Some(443)))))
    else w
  }

  function Defaulted(s: Spec): Spec {
    Spec(s.selectors,
         if s.selectorTarget == "" then POD_TEMPLATE_SPEC_LABELS else s.selectorTarget,
         if s.priority == "" then NORMAL else s.priority,
         if s.webhook.Some? then Some(DefaultedWebhook(s.webhook.value)) else None)
  }

  /** What admission fills in: the priority Normal, the labels of the pod template as target, and port 443
      for a service without one. All else stays. */
  lemma DefaultsMean(s: Spec)
    ensures var d := Defaulted(s);
      && d == s.(selectorTarget := d.selectorTarget, priority := d.priority, webhook := d.webhook)
      && d.priority == (if s.priority != "" then s.priority else "Normal")
      && d.selectorTarget == (if s.selectorTarget != "" then s.selectorTarget else "PodTemplateSpec")
      && (d.webhook.Some? <==> s.webhook.Some?)
    ensures s.webhook.Some? ==> ServiceDefaulted(s.webhook.value, Defaulted(s).webhook.value)
  {
  }

  predicate ServiceDefaulted(w: Webhook, d: Webhook) {
    var service, filled := w.clientConfig.service, d.clientConfig.service;
    && d == w.(clientConfig := w.clientConfig.(service := filled))
    && (service.None? ==> filled.None?)
    && (service.Some? && service.value.port.Some? ==> filled == service)
    && (service.Some? && service.value.port.None? ==> filled == Some(service.value.(port := Some(443))))
  }

  class ClusterPodConventionSpec {
    var selectors: seq<LabelSelector>
    var selectorTarget: string
    var priority: string
    var webhook: Option<Webhook>

    function View(): Spec
      reads this
    {
      Spec(selectors, selectorTarget, priority, webhook)
    }

    constructor DeepCopy(s: Spec)
      ensures View() == s
    {
      selectors, selectorTarget, priority, webhook := s.selectors, s.selectorTarget, s.priority, s.webhook;
    }

    method Default()
      modifies this
      ensures View() == Defaulted(old(View()))
    {
      if priority == "" {
        priority := NORMAL;
      }
      if webhook.Some? {
        var clientConfig := webhook.value.clientConfig;
        if clientConfig.service.Some? {
          var service := clientConfig.service.value;
          if service.port.None? {
            service := service.(port := Some(443));
            webhook := Some(webhook.value.(clientConfig := clientConfig.(service := Some(service))));
          }
        }
      }
      if selectorTarget == "" {
        selectorTarget := POD_TEMPLATE_SPEC_LABELS;
      }
    }

    /** validate: the list of errors, or None when a missing service port is dereferenced. */
    method Validate(checks: Checks) returns (errs: Option<seq<FieldError>>)
      ensures errs.None? <==> DereferencesPort(View())
      ensures errs.Some? ==> ListsFaults(View(), checks, errs.value)
      ensures errs.Some? && errs.value == [] <==> Acceptable(View(), checks)
    {
      var list := ValidateSelectors(selectors);
      if priority != EARLY && priority != LATE && priority != NORMAL {
        list := list + [InvalidPriority];
      }
      if webhook.None? {
        list := list + [WebhookRequired];
      } else {
        var nested := ValidateWebhook(webhook.value, checks);
        if nested.None? {
          return None;
        }
        list := list + nested.value;
      }
      if selectorTarget != POD_TEMPLATE_SPEC_LABELS && selectorTarget != POD_INTENT_LABELS {
        list := list + [InvalidSelectorTarget];
      }
      NoFaultIsAcceptable(View(), checks, list);
      return Some(list);
    }
  }

  /** The loop of validate over the selectors. */
  method ValidateSelectors(selectors: seq<LabelSelector>) returns (errs: seq<FieldError>)
    ensures forall e :: e in errs <==> e.InvalidSelector? && e.index < |selectors| && !Valid(selectors[e.index])
  {
    errs := [];
    for i := 0 to |selectors|
      invariant forall e :: e in errs <==> e.InvalidSelector? && e.index < i && !Valid(selectors[e.index])
    {
      if !Valid(selectors[i]) {
        errs := errs + [InvalidSelector(i)];
      }
    }
  }

  method ValidateWebhook(w: Webhook, checks: Checks) returns (errs: Option<seq<FieldError>>)
    ensures errs.None? <==> LacksPort(w.clientConfig)
    ensures errs.Some? ==>
      forall e :: e in errs.value <==> WebhookFault(w, e) || e in LibraryErrors(w.clientConfig, checks)
  {
    var list: seq<FieldError> := [];
    var url, service := w.clientConfig.url, w.clientConfig.service;
    if url.Some? && service.Some? {
      list := list + [GotBothTargets];
    } else if url.None? && service.None? {
      list := list + [GotNoTarget];
    } else if url.Some? {
      list := list + checks.url(url.value);
    } else {
      if service.value.port.None? {
        return None;
      }
      list := list + checks.service(service.value, service.value.port.value);
    }
    if w.certificate.Some? {
      if w.certificate.value.namespace == "" {
        list := list + [NamespaceRequired];
      }
      if w.certificate.value.name == "" {
        list := list + [NameRequired];
      }
    }
    return Some(list);
  }

  // ----- what validation accepts -----

  predicate DereferencesPort(s: Spec) {
    s.webhook.Some? && LacksPort(s.webhook.value.clientConfig)
  }

  predicate LacksPort(c: ClientConfig) {
    c.url.None? && c.service.Some? && c.service.value.port.None?
  }

  /** Exactly one of URL and service, and that one passes the library's check. */
  predicate AcceptableClient(c: ClientConfig, checks: Checks) {
    || (c.url.Some? && c.service.None? && checks.url(c.url.value) == [])
    || (c.url.None? && c.service.Some? && c.service.value.port.Some?
        && checks.service(c.service.value, c.service.value.port.value) == [])
  }

  predicate AcceptableCertificate(c: Option<CertificateRef>) {
    c.Some? ==> c.value.namespace != "" && c.value.name != ""
  }

  /** The faults that the resource finds itself, each under its own kind. */
  predicate OwnFault(s: Spec, e: FieldError) {
    match e
    case InvalidSelector(k) => k < |s.selectors| && !Valid(s.selectors[k])
    case InvalidPriority => s.priority != EARLY && s.priority != NORMAL && s.priority != LATE
    case WebhookRequired => s.webhook.None?
    case InvalidSelectorTarget => s.selectorTarget != POD_TEMPLATE_SPEC_LABELS && s.selectorTarget != POD_INTENT_LABELS
    case _ => s.webhook.Some? && WebhookFault(s.webhook.value, e)
  }

  predicate WebhookFault(w: Webhook, e: FieldError) {
    match e
    case GotBothTargets => w.clientConfig.url.Some? && w.clientConfig.service.Some?
    case GotNoTarget => w.clientConfig.url.None? && w.clientConfig.service.None?
    case NamespaceRequired => w.certificate.Some? && w.certificate.value.namespace == ""
    case NameRequired => w.certificate.Some? && w.certificate.value.name == ""
    case _ => false
  }

  /** What the API server library finds wrong with the one target that is given. */
  function LibraryErrors(c: ClientConfig, checks: Checks): seq<FieldError> {
    if c.url.Some? && c.service.None? then checks.url(c.url.value)
    else if c.url.None? && c.service.Some? && c.service.value.port.Some?
    then checks.service(c.service.value, c.service.value.port.value)
    else []
  }

  /** The list holds the resource's own faults and the library's errors, and nothing else. */
  ghost predicate ListsFaults(s: Spec, checks: Checks, errs: seq<FieldError>) {
    forall e :: e in errs <==>
      OwnFault(s, e) || (s.webhook.Some? && e in LibraryErrors(s.webhook.value.clientConfig, checks))
  }

  /** Each kind of error, and what it says; an error of the library may be of any kind. */
  lemma FaultsMean(s: Spec, checks: Checks, errs: seq<FieldError>, k: nat)
    requires ListsFaults(s, checks, errs) && s.webhook.Some?
    requires LibraryErrors(s.webhook.value.clientConfig, checks) == []
    ensures var w := s.webhook.value;
      && (InvalidSelector(k) in errs <==> k < |s.selectors| && !Valid(s.selectors[k]))
      && (InvalidPriority in errs <==> s.priority !in ["Early", "Normal", "Late"])
      && (InvalidSelectorTarget in errs <==> s.selectorTarget !in ["PodTemplateSpec", "PodIntent"])
      && (GotBothTargets in errs <==> w.clientConfig.url.Some? && w.clientConfig.service.Some?)
      && (GotNoTarget in errs <==> w.clientConfig.url.None? && w.clientConfig.service.None?)
      && (NamespaceRequired in errs <==> w.certificate.Some? && w.certificate.value.namespace == "")
      && (NameRequired in errs <==> w.certificate.Some? && w.certificate.value.name == "")
      && WebhookRequired !in errs && InvalidURL !in errs && InvalidService !in errs
  {
  }

  /** Nothing is listed exactly for the acceptable specs. */
  lemma NoFaultIsAcceptable(s: Spec, checks: Checks, errs: seq<FieldError>)
    requires ListsFaults(s, checks, errs) && !DereferencesPort(s)
    ensures errs == [] <==> Acceptable(s, checks)
  {
    if Acceptable(s, checks) {
      AcceptableHasNoFault(s, checks);
      if errs != [] {
        FirstIsListed(errs);
      }
    } else {
      var e := FaultOf(s, checks);
      assert e in errs;
    }
  }

  lemma FirstIsListed(errs: seq<FieldError>)
    requires errs != []
    ensures errs[0] in errs
  {
  }

  lemma AcceptableHasNoFault(s: Spec, checks: Checks)
    requires Acceptable(s, checks)
    ensures forall e :: !OwnFault(s, e)
    ensures LibraryErrors(s.webhook.value.clientConfig, checks) == []
  {
  }

  lemma FaultOf(s: Spec, checks: Checks) returns (e: FieldError)
    requires !Acceptable(s, checks) && !DereferencesPort(s)
    ensures OwnFault(s, e) || (s.webhook.Some? && e in LibraryErrors(s.webhook.value.clientConfig, checks))
  {
    if k :| 0 <= k < |s.selectors| && !Valid(s.selectors[k]) {
      e := InvalidSelector(k);
    } else if OwnFault(s, InvalidPriority) {
      e := InvalidPriority;
    } else if OwnFault(s, InvalidSelectorTarget) {
      e := InvalidSelectorTarget;
    } else if s.webhook.None? {
      e := WebhookRequired;
    } else {
      e := WebhookFaultOf(s.webhook.value, checks);
    }
  }

  lemma WebhookFaultOf(w: Webhook, checks: Checks) returns (e: FieldError)
    requires !AcceptableClient(w.clientConfig, checks) || !AcceptableCertificate(w.certificate)
    requires !LacksPort(w.clientConfig)
    ensures WebhookFault(w, e) || e in LibraryErrors(w.clientConfig, checks)
  {
    if WebhookFault(w, GotBothTargets) {
      e := GotBothTargets;
    } else if WebhookFault(w, GotNoTarget) {
      e := GotNoTarget;
    } else if WebhookFault(w, NamespaceRequired) {
      e := NamespaceRequired;
    } else if WebhookFault(w, NameRequired) {
      e := NameRequired;
    } else {
      e := LibraryErrors(w.clientConfig, checks)[0];
    }
  }

  predicate Acceptable(s: Spec, checks: Checks) {
    && (forall k | 0 <= k < |s.selectors| :: Valid(s.selectors[k]))
    && (s.priority == "Early" || s.priority == "Normal" || s.priority == "Late")
    && s.webhook.Some?
    && AcceptableClient(s.webhook.value.clientConfig, checks)
    && AcceptableCertificate(s.webhook.value.certificate)
    && (s.selectorTarget == "PodTemplateSpec" || s.selectorTarget == "PodIntent")
  }

  /** Defaulting twice is defaulting once, and makes the port dereference of validation safe. */
  lemma DefaultIsSafe(s: Spec)
    ensures Defaulted(Defaulted(s)) == Defaulted(s)
    ensures !DereferencesPort(Defaulted(s))
  {
  }

  // ----- what admission gives the pipeline -----

  /** The convention passes the selectors and the priority of an admitted spec on. */
  ghost predicate FromAdmitted(c: Convention, checks: Checks) {
    exists s: Spec :: Acceptable(Defaulted(s), checks) && PassesOn(s, c)
  }

  predicate PassesOn(s: Spec, c: Convention) {
    c.selectors == s.selectors && c.priority == Defaulted(s).priority
  }

  lemma AdmittedConvention(c: Convention, checks: Checks, collected: map<string, Labels>)
    requires FromAdmitted(c, checks)
    ensures LegalPriority(c) && !Broken(c, collected)
  {
    var s: Spec :| Acceptable(Defaulted(s), checks) && PassesOn(s, c);
  }

  /** Conventions made from admitted specs never break the filter, whatever the labels and the
      target, and are in the domain of the sort: a strict total order when names are distinct. */
  lemma AdmissionSuffices(cs: seq<Convention>, checks: Checks, collected: map<string, Labels>)
    requires forall c | c in cs :: FromAdmitted(c, checks)
    ensures forall i | 0 <= i < |cs| :: !Broken(cs[i], collected)
    ensures StrictWeakOrder(Before, cs)
    ensures DistinctNames(cs) ==> StrictTotalOrder(Before, cs)
  {
    forall i | 0 <= i < |cs| ensures LegalPriority(cs[i]) && !Broken(cs[i], collected) {
      AdmittedConvention(cs[i], checks, collected);
    }
    LegalIsOrder(cs);
    if DistinctNames(cs) {
      LegalIsTotal(cs);
    }
  }
}
