/** The parts of the Kubernetes pod types that conventions read or write, and the image
    metadata that travels with a template. */
module Core {
  import opened Wrappers

  datatype EnvVar = EnvVar(name: string, value: string)

  datatype ContainerPort = ContainerPort(containerPort: int, protocol: string)

  /** A probe handler; NoHandler is the zero value of the Go struct. */
  datatype ProbeHandler = NoHandler | HTTPGet(path: string, port: int, scheme: string) | OtherHandler(action: string)

  datatype Probe = Probe(handler: ProbeHandler, initialDelaySeconds: int, periodSeconds: int, failureThreshold: int)

  datatype Container = Container(
    name: string,
    image: string,
    env: seq<EnvVar>,
    ports: seq<ContainerPort>,
    livenessProbe: Option<Probe>,
    readinessProbe: Option<Probe>,
    startupProbe: Option<Probe>)

  datatype PodTemplate = PodTemplate(
    labels: map<string, string>,
    annotations: map<string, string>,
    terminationGracePeriodSeconds: Option<int>,
    initContainers: seq<Container>,
    containers: seq<Container>)

  datatype Component = Component(name: string, version: string)

  /** A bill of materials: CycloneDX with its optional component list, or any other content. */
  datatype BOM = CycloneDX(components: Option<seq<Component>>) | OtherFormat

  datatype ImageConfig = ImageConfig(image: string, boms: seq<BOM>, config: string)

  /** A template in memory. Both container lists are slices: copying the struct shares them. */
  class PodTemplateSpec {
    var labels: map<string, string>
    var annotations: map<string, string>
    var terminationGracePeriodSeconds: Option<int>
    var initContainers: array<Container>
    var containers: array<Container>

    /** The two slices do not overlap. */
    predicate Valid()
      reads this
    {
      initContainers != containers
    }

    function View(): PodTemplate
      reads this, initContainers, containers
    {
      PodTemplate(labels, annotations, terminationGracePeriodSeconds, initContainers[..], containers[..])
    }

    /** A template decoded from a response: it owns its slices. */
    constructor Decode(t: PodTemplate)
      ensures Valid() && View() == t
      ensures fresh(this) && fresh(initContainers) && fresh(containers)
    {
      labels, annotations := t.labels, t.annotations;
      terminationGracePeriodSeconds := t.terminationGracePeriodSeconds;
      var inits := new Container[|t.initContainers|](i requires 0 <= i < |t.initContainers| => t.initContainers[i]);
      var mains := new Container[|t.containers|](i requires 0 <= i < |t.containers| => t.containers[i]);
      initContainers, containers := inits, mains;
      new;
      assert inits[..] == t.initContainers && mains[..] == t.containers;
    }

    /** AsPodTemplateSpec: a new struct over the same slices. */
    constructor AsPodTemplateSpec(source: PodTemplateSpec)
      requires source.Valid()
      ensures Valid() && View() == source.View()
      ensures initContainers == source.initContainers && containers == source.containers
    {
      labels, annotations := source.labels, source.annotations;
      terminationGracePeriodSeconds := source.terminationGracePeriodSeconds;
      initContainers, containers := source.initContainers, source.containers;
    }
  }
}
