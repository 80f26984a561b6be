/** The resources of the conventions API. */
module ConventionTypes {
  import opened Wrappers
  import opened Core
  import opened Selectors

  const EARLY := "Early"
  const NORMAL := "Normal"
  const LATE := "Late"

  const POD_TEMPLATE_SPEC_LABELS := "PodTemplateSpec"
  const POD_INTENT_LABELS := "PodIntent"

  const APPLIED_CONVENTIONS := "conventions.carto.run/applied-conventions"

  type Bytes = seq<bv8>

  datatype Service = Service(namespace: string, name: string, path: Option<string>, port: Option<int>)

  datatype ClientConfig = ClientConfig(url: Option<string>, service: Option<Service>, caBundle: Bytes)

  const NO_CLIENT := ClientConfig(None, None, [])

  datatype CertificateRef = CertificateRef(namespace: string, name: string)

  datatype Webhook = Webhook(clientConfig: ClientConfig, certificate: Option<CertificateRef>)

  /** A convention as the pipeline uses it. */
  datatype Convention = Convention(
    name: string,
    selectorTarget: string,
    selectors: seq<LabelSelector>,
    priority: string,
    clientConfig: ClientConfig)

  datatype Status = True | False | Unknown

  datatype Condition = Condition(status: Status, reason: string)

  /** A PodIntent in memory: its metadata, the template of its spec, and its status. */
  class PodIntent {
    const name: string
    const namespace: string
    const imagePullSecrets: seq<string>
    const labels: Labels
    const template: PodTemplateSpec
    var serviceAccountName: string
    var conventionsApplied: Option<Condition>
    var ready: Option<Condition>
    var statusTemplate: Option<PodTemplate>

    constructor (name: string, namespace: string, labels: Labels, template: PodTemplate,
                 serviceAccountName: string, imagePullSecrets: seq<string>,
                 conventionsApplied: Option<Condition>, ready: Option<Condition>, statusTemplate: Option<PodTemplate>)
      ensures this.name == name && this.namespace == namespace && this.labels == labels
      ensures this.serviceAccountName == serviceAccountName && this.imagePullSecrets == imagePullSecrets
      ensures this.conventionsApplied == conventionsApplied && this.ready == ready
      ensures this.statusTemplate == statusTemplate
      ensures fresh(this.template) && fresh(this.template.initContainers) && fresh(this.template.containers)
      ensures this.template.Valid() && this.template.View() == template
    {
      var spec := new PodTemplateSpec.Decode(template);
      this.name, this.namespace, this.labels, this.template := name, namespace, labels, spec;
      this.serviceAccountName, this.imagePullSecrets := serviceAccountName, imagePullSecrets;
      this.conventionsApplied, this.ready, this.statusTemplate := conventionsApplied, ready, statusTemplate;
    }
  }
}
