# Cartographer Conventions: a verified model

Cartographer Conventions enriches the pod template of a `PodIntent` by asking a list of convention
webhooks in turn. This project models, in Dafny, the two parts of the system where the interesting
logic is, and proves what they promise.

**The convention pipeline and its reconciler.** A reconcile defaults and resolves the cluster's
`ClusterPodConvention`s (`Admission`, `CABundle`, `Reconciler`), filters them by label selectors and
sorts them by priority and name (`Selectors`, `Conventions`), and folds their webhooks over the pod
template (`Images`, `Pipeline`, `ConventionLists`). Before each webhook every image is resolved and
pinned to a digest, and a receipt of all applied conventions is kept in an annotation. The status
carries the condition `ConventionsApplied`, the derived `Ready`, and the last good template
(`ReconcileRuns`). `SelectorTargets` compares the documented selection with the actual one, and
`Metrics` models the reconciler that counts intents in a ConfigMap.

**The Spring Boot convention server.** It parses `-Dkey=value` words out of `JAVA_TOOL_OPTIONS`
(`SpringProperties`), looks up dependencies in the image's bills of materials (`Dependencies`), runs
an ordered list of conventions over every container (`SpringBoot`, `SpringServerCode`) and prints the
properties back. `RoundTrips`, `Convergence`, `SpringRuns`, `RunConvergence`, `ExactConvergence`,
`EventualConvergence` and `SpringGuarantees` hold the theorems, `SpringOutcomes` says case by case what each
convention does and what of it is found after a run, and `SpringCounterexamples` holds the inputs for which
documented properties fail.

Code that changes things in place is modelled by classes and methods that change fields, arrays and
maps in place; each such method is proved against a function or relation over values, and the theorems
are about those. `Core.PodTemplateSpec` keeps its two container lists in arrays, so a copied struct
shares them as Go slices do. `Text` and `Sorting` supply the string and sorting routines of Go's
standard library; a sort is only assumed to permute its input and, for a strict weak order, to leave
no inversion.

Every function that a theorem is stated with is also characterised without itself: by the literal names,
paths and numbers of the system (`SpringOutcomes`, `Metrics.ReadyCounters`, `Admission.DefaultsMean`), by
what an outside observer sees (`Pipeline.RequestFollowsResponse`, `Images.ResolvesTo`,
`ReconcileRuns.ResultOfReconcile`), or by a textbook definition (`Text.LessIsPrecedes`, `Text.AtoiDenotes`).

What comes from outside is a parameter. A registry is an arbitrary partial function for each resolution
pass, and a webhook an arbitrary partial function for each position in the list, so neither needs to
stay the same between two calls. The cluster of one reconcile is a value that may be different in the
next. Semantic-version constraints, URL and service checks, and the reference parsers of the registry
library are function parameters.

## Assumptions

- The reference library (`Images.Lawful`): the text of a digest reference parses back to the same
  repository and digest, and a digest behind the text of a tag reference names that repository and
  digest. Its printed form may drop the tag, so repository and digest are compared, never text. That these
  assumptions can be met is shown on a small library (`Images.SampleLibraryIsLawful`).
- Registries serve sha256 digests (`Images.ServesDigests`).
- A sequence of sub-reconcilers stops at the first Go error, every reconcile works on a private copy of
  the resource with a fresh stash, and it begins with `InitializeConditions`. The condition set has one
  dependent condition, which sets `Ready` along with itself.
- The boot grace period is computed exactly. `SpringGuarantees.FloatGraceAgrees` proves that the code,
  which computes with doubles, finds the same number for every grace period from 0 to below 2^50 seconds;
  it uses only that rounding is monotone, keeps whole numbers and has a bounded relative error.

## Where code and documentation differ

- `ResolveConventions` does not pass the selector target on (`podintent_reconciler.go:109-113`), so the
  selectors of a resolved convention meet the empty label set, while `docs/design.md:200-204` promises
  a match against the labels of the chosen target. The model follows the code. `Conventions.Filter` is
  specified for conventions that carry a target. `SelectorTargets.PlanIsLabelFree` says which conventions
  a reconcile plans, `PromiseIsKept` for which intents that is the documented selection, and
  `PromiseIsAlwaysKept` for which admitted sources it is on every intent, by a finite check of the source;
  `PresenceIsAlwaysKept` says it shorter for selectors that ask for presence only. `PromiseIsDropped` and
  `ExclusionIsIgnored` are admitted sources for which it fails, in either direction.
- The comparator of `Sort` is not an order for every list of priorities; `Conventions.ComparatorDomain`
  gives the exact condition, which admission establishes, and `ComparatorExample` a list that violates it.
- `docs/design.md:208` promises digests in the resulting template. Nothing resolves the images of the last
  response: by `Pipeline.ResultIsPinned` the result has the images that the last convention answers, pinned
  if it leaves them as requested. `ResultKeepsPin` says that an image no convention rewrites is pinned, and
  `LateTagStays` is a run whose result names a tag.
  Without conventions no image is resolved at all (`Pipeline.NoConventions`).
- `docs/design.md:214` asks conventions to converge. A successful run of the Spring server does so if and
  only if its template meets two conditions (`ExactConvergence.RunConvergesExactly`). Both look at the keys
  that the run will print into a container: those of its own -D properties, and those that the applicable
  conventions supply (`SpringRuns.PrintedKeys`). First, for each container with metadata, the option words
  that are no properties do not begin with one once white space is trimmed, or are one property whose key
  precedes all printed keys. Second, in the last container with an actuator: if the management port is the
  last printed key, the user's value, if any, does not end in white space; and if the switch of its TLS is
  the last printed key, the user's value is not "true" with white space behind it. Both hold when ' ' is the
  only white space in the options (`RunConvergence.RunConverges`, `OnlySpaces`).
  `SpringCounterexamples.StrayWhiteSpaceDiverges` is a family of templates that violates the first, and
  `StrayExample` and `AnnouncementExample` are templates that violate one condition each.
  Every run converges in the end: once one succeeds so do all further ones, and if no container has more
  than m option words that are no properties, nothing changes after run m + 2
  (`EventualConvergence.RunsConvergeEventually`). `AnnouncementExample`, with m = 0, is still changed by run 2.
- `docs/design.md:215` asks conventions to keep what the user set. A property keeps its value exactly unless
  it is `server.shutdown.grace-period`, graceful shutdown applies to the container, and the value is not the
  one derived from the pod (`SpringGuarantees.UserPropertiesArePrinted`); reading the container back may
  besides lose the white space at the end of the value of the last printed key (`UserPropertiesSurvive`).
  `SpringCounterexamples.GraceExample` is a template whose value is replaced.

## Model

| member | source | states |
|---|---|---|
| ExactConvergence.RunConvergesExactly | samples/spring-convention-server/server.go:35-70 | a second run over the result of a successful run, with the same metadata, succeeds, reports the same names and leaves the template if and only if, in the template before the first, the kept words settle before the keys to be printed and the values to be announced last settle |
| ExactConvergence.AnnouncementByKeys | samples/spring-convention-server/resources/springboot.go:107-121 | whether the announced URI survives the trimming of the last property depends on the printed keys and the values of the user as stated |
| EventualConvergence.RunsConvergeEventually | samples/spring-convention-server/server.go:35-70 | once a run succeeds all further ones do, with the same names, and with at most m kept words in a container the template stays the same from run m + 2 on |
| EventualConvergence.PreparedRun | samples/spring-convention-server/server.go:42-68 | a run over settled conventions succeeds and is one more pass over the options of each container |
| RunConvergence.RunConverges | samples/spring-convention-server/server.go:35-70 | a second run succeeds, repeats names and printed properties and leaves the template, for any containers with clean options |
| RunConvergence.RerunIsFixed | samples/spring-convention-server/server.go:42-68 | the same for any list of conventions of these kinds in any order |
| RunConvergence.OnlySpaces | samples/spring-convention-server/resources/spring_properties.go:43-71 | a template is clean when the options of its containers with metadata hold no white space but ' '; nothing else in it matters |
| RunConvergence.StableRun | samples/spring-convention-server/server.go:42-68 | a run over containers whose options reprint and whose conventions are settled succeeds and rewrites labels and annotations only |
| RunConvergence.RerunReports | samples/spring-convention-server/server.go:42-68 | a second run that succeeds reports the same names and labels and writes the annotations of the properties it printed |
| SpringCounterexamples.StrayWhiteSpaceDiverges | samples/spring-convention-server/resources/spring_properties.go:37-78 | no run over a template converges that holds, behind other white space, a property that does not come first in key order |
| SpringCounterexamples.StrayExample | samples/spring-convention-server/server.go:35-70 | a template with one container and a tab in its options whose run succeeds and does not converge |
| SpringCounterexamples.AnnouncementExample | samples/spring-convention-server/resources/springboot.go:107-121 | a template whose management port ends in a tab: the second run announces another URI |
| SpringCounterexamples.GraceExample | samples/spring-convention-server/resources/springboot.go:57-69 | a run that replaces the user's shutdown period of five seconds by the 24 seconds derived from the default grace period, with the names it reports |
| Convergence.ConventionSettles | samples/spring-convention-server/resources/springboot.go:30-252 | a convention that succeeds leaves its own goal reached |
| Convergence.SettledStays | samples/spring-convention-server/resources/springboot.go:30-252 | no convention undoes the goal of another, in whatever order they run |
| Convergence.SettledIsFixed | samples/spring-convention-server/resources/springboot.go:30-252 | a convention whose goal is reached succeeds and changes labels and annotations at most |
| Convergence.ApplyAllKeys | samples/spring-convention-server/resources/springboot.go:57-135 | the keys of the properties after a pass are those before and those the applicable conventions set, whatever else happens |
| Convergence.ApplyAllWrites | samples/spring-convention-server/server.go:58-66 | the applied names depend on the image alone, and labels and annotations are only written over |
| SpringRuns.RunRemembers | samples/spring-convention-server/server.go:42-68 | after a successful run each container with metadata has its conventions settled for the properties printed into it, which derive from its own options |
| SpringRuns.PrintedReads | samples/spring-convention-server/resources/spring_properties.go:37-78 | what ToContainer writes after FromContainer is read back as stated, and reprinting it restores the container if the options settle |
| SpringRuns.UnsettledIsRewritten | samples/spring-convention-server/resources/spring_properties.go:37-78 | otherwise no values of the same properties restore it |
| SpringRuns.RunFrame | samples/spring-convention-server/server.go:42-68 | a run keeps names, images, init containers, declared ports, port owners, the grace period and filled probes |
| RoundTrips.RoundTripFresh | samples/spring-convention-server/resources/spring_properties.go:37-78 | printing a map into a container without the variable and parsing gives it back if and only if keys hold no ' ' or '=' and values no ' ' |
| RoundTrips.ParsePrint | samples/spring-convention-server/resources/spring_properties.go:37-78 | what any printed options read back as: the properties, the last one trimmed, and the kept words, the first of which may have become a property |
| RoundTrips.ReprintSettles | samples/spring-convention-server/resources/spring_properties.go:37-78 | a second parse-then-print changes nothing if and only if the options settle, for every option string |
| RoundTrips.ReprintSettlesEventually | samples/spring-convention-server/resources/spring_properties.go:37-78 | every option string settles: after the first pass at most as many passes change it as it has words that are no properties |
| RoundTrips.UnsettledPrint | samples/spring-convention-server/resources/spring_properties.go:56-78 | an unsettled text is printed differently whatever values its properties are given meanwhile |
| RoundTrips.CleanReprint | samples/spring-convention-server/resources/spring_properties.go:37-78 | on clean options parse-then-print is idempotent and keeps every property and every other non-empty word in order |
| SpringProperties.LastWordWins | samples/spring-convention-server/resources/spring_properties.go:43-51 | a property is present exactly when a word sets it, with the value of the last such word |
| SpringProperties.KeptInOrder | samples/spring-convention-server/resources/spring_properties.go:42-47 | the kept words are the words that are no properties, in order |
| SpringProperties.WordMeans | samples/spring-convention-server/resources/spring_properties.go:44-50 | a property is a word -Dkey=value, split at its first equals sign |
| SpringProperties.WordsMean | samples/spring-convention-server/resources/spring_properties.go:56-66 | each property is printed once as -Dkey=value, in the string order of the keys |
| SpringProperties.ReadMeans | samples/spring-convention-server/resources/spring_properties.go:37-54 | what reading takes out of the first JAVA_TOOL_OPTIONS and what it leaves there |
| SpringProperties.WriteMeans | samples/spring-convention-server/resources/spring_properties.go:68-77 | what writing appends to it, or the last variable it adds |
| SpringProperties.OnlySpacesIsClean | samples/spring-convention-server/resources/spring_properties.go:71 | an option string whose only white space is ' ' is clean |
| Text.SpacesAreListed | samples/spring-convention-server/resources/spring_properties.go:71 | which characters are white space, one by one |
| Text.TrimSpaceIsInside | samples/spring-convention-server/resources/spring_properties.go:71 | trimming drops white space from both ends, all of it and nothing else |
| SpringProperties.SpringApplicationProperties.Default | samples/spring-convention-server/resources/spring_properties.go:30-35 | a missing key gets the default, a present one keeps its value, and the value is returned |
| SpringProperties.SpringApplicationProperties.FromContainer | samples/spring-convention-server/resources/spring_properties.go:37-54 | the map gains the parsed properties and the container's variable keeps the other words |
| SpringProperties.SpringApplicationProperties.TakeProperties | samples/spring-convention-server/resources/spring_properties.go:42-51 | the word loop: properties to the map, the rest kept |
| SpringProperties.SpringApplicationProperties.ToContainer | samples/spring-convention-server/resources/spring_properties.go:56-78 | the map is printed in key order behind the kept words, whatever the iteration order of the map |
| SpringProperties.SearchEnvVar | samples/spring-convention-server/resources/conventions.go:74-82 | the first variable of that name, or none |
| SpringServerCode.FindContainerPort | samples/spring-convention-server/resources/conventions.go:84-93 | the first container that declares the port, or none |
| SpringServerCode.ApplyGracefulShutdownTo | samples/spring-convention-server/resources/springboot.go:57-69 | the pod's grace period is defaulted and 80% of it printed for boot |
| SpringServerCode.ApplyWebTo | samples/spring-convention-server/resources/springboot.go:77-99 | the server port is defaulted, claimed if free, and an error if a container of another name has it |
| Text.AtoiDenotes | samples/spring-convention-server/resources/springboot.go:81 | a text is a number exactly when it is an optional sign, zeros and the decimal text of a 64-bit number |
| Text.DecimalDigits | samples/spring-convention-server/resources/springboot.go:67 | decimal text on three numbers |
| Text.ToInt32Wraps | samples/spring-convention-server/resources/springboot.go:88-90 | the conversion to 32 bits drops multiples of 2^32 and keeps 32-bit numbers |
| SpringServerCode.ApplyActuatorTo | samples/spring-convention-server/resources/springboot.go:107-121 | management port and base path are defaulted and announced |
| SpringServerCode.ApplyProbesTo | samples/spring-convention-server/resources/springboot.go:129-197 | empty probe handlers are filled from the properties unless switched off, startup from liveness |
| SpringServerCode.ApplyServiceIntentTo | samples/spring-convention-server/resources/serviceintent.go:43-53 | label and annotation from the first listed dependency that is present |
| SpringServerCode.IsApplicableTo | samples/spring-convention-server/resources/springboot.go:33-128 | which dependencies and versions make each convention applicable |
| SpringServerCode.AddSpringBootConventions | samples/spring-convention-server/server.go:35-70 | the driver in place equals the run over values; the first error yields no names |
| SpringGuarantees.WebOwnsItsPort | samples/spring-convention-server/resources/springboot.go:77-99 | with distinct names each web container is the first to declare its own int32 server port |
| SpringGuarantees.WebPortsAreDisjoint | samples/spring-convention-server/resources/springboot.go:86-97 | no two web containers share a server port, and no port declared before is removed |
| SpringGuarantees.UserPropertiesArePrinted | samples/spring-convention-server/resources/springboot.go:57-69 | a -D property is printed with its last value if and only if it is not a shutdown grace period that graceful shutdown derives differently |
| SpringGuarantees.UserPropertiesSurvive | samples/spring-convention-server/resources/spring_properties.go:30-78 | it is read from the final container with that value if and only if, besides, it is not the last key to be printed with a value that ends in white space |
| SpringGuarantees.UserProbesSurvive | samples/spring-convention-server/resources/springboot.go:158-193 | a probe with a handler is kept as it is, and so is a grace period |
| SpringGuarantees.BootGraceIsFourFifths | samples/spring-convention-server/resources/springboot.go:65-66 | the boot period b of a grace period g is the integer with 5b <= 4g < 5b + 5 |
| SpringGuarantees.FloatGraceAgrees | samples/spring-convention-server/resources/springboot.go:66 | computing with doubles gives that boot period for every grace period from 0 to below 2^50 seconds |
| SpringGuarantees.ShutdownGraceIsDerived | samples/spring-convention-server/resources/springboot.go:60-67 | wherever graceful shutdown applies the printed shutdown period is derived from the pod's grace period |
| SpringGuarantees.ServiceIntentIsRecorded | samples/spring-convention-server/resources/serviceintent.go:38-53 | an applicable intent always sets its label and annotation, from its first present dependency; another changes nothing |
| SpringOutcomes.FinalProbes | samples/spring-convention-server/server.go:42-68 | after a run the probes of a container with an actuator follow from those it had and the properties printed into it: unless switched off, empty handlers get base path and /health/liveness or /health/readiness from 2.3.0 on and /info before, at the management port by HTTPS or HTTP, startup what liveness has, a missing startup probe 1, 1 and 120; without an actuator they stay |
| SpringOutcomes.ActuatorProbesDoes | samples/spring-convention-server/resources/springboot.go:129-197 | the same of the convention alone; it fails exactly when the probes are on and the management port is no number, and changes nothing but the probes of its container |
| SpringOutcomes.FinalPorts | samples/spring-convention-server/server.go:42-68 | after a run a container declares the ports it had and at most the server port printed into it, for TCP |
| SpringOutcomes.FinalEnvironment | samples/spring-convention-server/resources/spring_properties.go:37-78 | after a run JAVA_TOOL_OPTIONS, the first or a new last variable, has the words that are no properties and behind them the printed properties; no other variable changes |
| SpringOutcomes.FinalGrace | samples/spring-convention-server/resources/springboot.go:57-69 | after a run the pod has its grace period or 30 seconds, and graceful shutdown the whole seconds of 80% of it |
| SpringOutcomes.FrameworkDoes | samples/spring-convention-server/resources/springboot.go:37-44 | label and version annotation, the version of the first spring-boot listed |
| SpringOutcomes.GracefulShutdownDoes | samples/spring-convention-server/resources/springboot.go:57-69 | grace period 30 by default, and the derived shutdown period in seconds |
| SpringOutcomes.WebDoes | samples/spring-convention-server/resources/springboot.go:77-99 | port 8080 by default; declared for TCP if nobody declares it; an error for text that is no number and for a port another container was the first to declare |
| SpringOutcomes.ActuatorDoes | samples/spring-convention-server/resources/springboot.go:107-121 | port and base path by default, and the address http(s)://: with port and path as annotation |
| SpringOutcomes.FrameworkApplies | samples/spring-convention-server/resources/springboot.go:32-36 | its name, and that it needs spring-boot |
| SpringOutcomes.GracefulShutdownApplies | samples/spring-convention-server/resources/springboot.go:47-56 | its name, and that it needs a first spring-boot from 2.3.0 on and one of the four web servers |
| SpringOutcomes.WebApplies | samples/spring-convention-server/resources/springboot.go:72-76 | its name, and that it needs spring-boot and spring-web |
| SpringOutcomes.ActuatorApplies | samples/spring-convention-server/resources/springboot.go:102-128 | the names of both actuator conventions, and that they need the actuator |
| SpringOutcomes.ServiceIntentApplies | samples/spring-convention-server/resources/serviceintent.go:34-41 | its name, and that one of its dependencies is needed |
| SpringOutcomes.ConventionOrder | samples/spring-convention-server/resources/springboot.go:30-199 | the order of the first five conventions |
| SpringOutcomes.DatabaseIntents | samples/spring-convention-server/resources/springboot.go:201-223 | id, label and dependencies of the database intents |
| SpringOutcomes.BrokerIntents | samples/spring-convention-server/resources/springboot.go:224-252 | the same of the others |
| SpringOutcomes.PassConcat | samples/spring-convention-server/server.go:58-67 | a pass over a list is a pass over its front and then, unless that failed, over the rest from where it left off |
| SpringOutcomes.PassOfOne | samples/spring-convention-server/server.go:58-67 | a pass over one convention applies it exactly if it is applicable, and reports its name |
| SpringOutcomes.AppliedIdsConcat | samples/spring-convention-server/server.go:58-66 | names are reported in the order of the conventions |
| SpringOutcomes.NamesInOrder | samples/spring-convention-server/server.go:41-69 | and in the order of the containers |
| SpringOutcomes.FailedRunStops | samples/spring-convention-server/server.go:64-66 | a run that fails reports no names and leaves all containers behind the failing one alone |
| SpringOutcomes.UnknownImageIsSkipped | samples/spring-convention-server/server.go:45-49 | a container without metadata is after a run as it was |
| SpringOutcomes.LastEntryCounts | samples/spring-convention-server/server.go:36-39 | of several entries for an image the last counts |
| SpringOutcomes.EntriesCount | samples/spring-convention-server/server.go:36-39 | an image has metadata exactly when an entry names it |
| Dependencies.LookupsAgree | samples/spring-convention-server/resources/dependencies.go:46-73 | HasDependency holds exactly when Dependency finds a listed name, the first listed one present |
| Dependencies.FindMeans | samples/spring-convention-server/resources/dependencies.go:46-58 | a look-up yields the first listed component of the name, if there is one |
| Dependencies.HasMeans | samples/spring-convention-server/resources/dependencies.go:60-73 | several names are present as soon as one is |
| Dependencies.SatisfiesMeans | samples/spring-convention-server/resources/dependencies.go:75-89 | a constraint is asked of the first version listed and fails without one |
| Dependencies.ComponentsConcat | samples/spring-convention-server/resources/dependencies.go:31-57 | bills are searched one after the other |
| Dependencies.ComponentsOfOne | samples/spring-convention-server/resources/dependencies.go:33-50 | only CycloneDX bills with a component list have components |
| Dependencies.DependenciesBOM.NewDependenciesBOM | samples/spring-convention-server/resources/dependencies.go:31-40 | exactly the CycloneDX bills are kept, in order |
| Dependencies.DependenciesBOM.Dependency | samples/spring-convention-server/resources/dependencies.go:46-58 | the first component of that name over all bills |
| Dependencies.DependenciesBOM.HasDependency | samples/spring-convention-server/resources/dependencies.go:60-73 | some component has one of the names |
| Conventions.Filter | pkg/binding/conventions.go:46-72 | an error exactly when some convention has an invalid selector before any match; otherwise the selected conventions |
| Conventions.SelectionMembers | pkg/binding/conventions.go:49-69 | the selection holds exactly the conventions without selectors or with a matching one, each as often as listed |
| Conventions.SelectionConcat | pkg/binding/conventions.go:49-69 | the selection keeps the order of the list |
| Conventions.FirstDecides | pkg/binding/conventions.go:49-69 | the first selector that does not mismatch the labels of the target decides: a match selects, an invalid one breaks; without selectors a convention is selected |
| Selectors.OperatorsNeedValues | pkg/binding/conventions.go:58-62 | which operators are valid with and without values |
| Selectors.OperatorsMean | pkg/binding/conventions.go:58-66 | In and Exists, and NotIn and DoesNotExist as their opposites |
| Selectors.RequirementsAdd | pkg/binding/conventions.go:50-66 | an empty selector matches, each requirement is one more condition, and a label is a requirement of one value |
| Selectors.SelectMeans | pkg/binding/conventions.go:59-66 | an error exactly for an invalid requirement or illegal text |
| Text.LessIsPrecedes | pkg/binding/conventions.go:79-81 | names are compared as Go strings: a proper prefix comes first, otherwise the first difference decides |
| Conventions.ComparatorDomain | pkg/binding/conventions.go:76-83 | the comparator is a strict weak order on a list if and only if no two differing middle priorities occur with one of them on two names |
| Conventions.ComparatorExample | pkg/binding/conventions.go:76-83 | a list with an empty priority for which the comparator is no order |
| Conventions.LegalIsTotal | pkg/binding/conventions.go:76-83 | for legal priorities and distinct names it is a strict total order |
| Conventions.SortIsCanonicalByPriority | pkg/binding/conventions.go:74-85 | any sorts of any orderings of the same conventions agree: Early ones come first, Late ones last, and those of one priority in the string order of their names |
| ConventionLists.ConventionList.Sort | pkg/binding/conventions.go:74-85 | the list is sorted in place and returned; with legal priorities and different names it lies in those blocks |
| ConventionLists.ConventionList.FilterAndSort | pkg/binding/conventions.go:38-44 | a new list, the sorted selection, or the filter's error |
| ConventionLists.ConventionList.Apply | pkg/binding/conventions.go:87-138 | the result and calls of the fold, which RunIsChain, RequestFollowsResponse, ResultFollows and FailureMeans characterise; the parent changes in the images pinned by the first resolution only; a nil parent is an error |
| ConventionLists.FirstPinTouchesImagesOnly | pkg/apis/conventions/v1alpha1/podtemplatespec.go:54-62 | through shared slices a run may change image fields only, each into the resolution of its old value, and nothing without a successful first resolution |
| Pipeline.RunIsChain | pkg/binding/conventions.go:96-137 | every request has the name, the pinned template and the image metadata due for the previous response with the full receipt; the result is the last response; a failure is an unanswered call or a failed resolution |
| Pipeline.RequestFollowsResponse | pkg/binding/conventions.go:101-116 | the request of each call: name, every image pinned to what the registry of that moment serves, one metadata entry for each distinct non-empty image in string order holding what is served for it, an entry for every image of the template; made from the previous template with the receipt replaced |
| Pipeline.ResultFollows | pkg/binding/conventions.go:125-137 | a successful run calls all conventions and returns the last answer with the full receipt |
| Pipeline.FailureMeans | pkg/binding/conventions.go:103-121 | a run fails because the last webhook asked gives no answer or an image of the next template cannot be served |
| Pipeline.LabelledAt | pkg/binding/conventions.go:127-131 | a reported name is recorded as convention/name |
| Pipeline.ReceiptReads | pkg/binding/conventions.go:97-100 | the history is the lines of the annotation, none if it is missing or empty |
| Pipeline.CallsArePrefix | pkg/binding/conventions.go:101-136 | conventions are called in order, all of them answering exactly on success, and only the last call may go unanswered |
| Pipeline.ReceiptIsHistory | pkg/binding/conventions.go:97-135 | the receipt is the old history followed by every reported name in call order, whatever webhooks did to it |
| Pipeline.ReceiptReadsBack | pkg/binding/conventions.go:98-135 | splitting the receipt gives back exactly that history if and only if no reported name, prefixed by its convention, holds a newline |
| Pipeline.NoConventions | pkg/binding/conventions.go:96-137 | without conventions the template comes back unchanged, not even resolved |
| Pipeline.PinsStayFixed | pkg/binding/conventions.go:101-125 | all webhooks of a run see one repository and digest for an image no convention rewrites, however tags move |
| Pipeline.ResultIsPinned | pkg/binding/conventions.go:101-136 | the result has the images of the last response unresolved; they are pinned when that response leaves them as requested |
| Pipeline.ResultKeepsPin | pkg/binding/conventions.go:101-136 | an image no convention rewrites reaches the result with the digest all webhooks saw |
| Pipeline.LateTagStays | pkg/binding/conventions.go:126-136 | a successful run whose last convention writes a tag ends with that tag |
| Images.ResolutionPins | pkg/binding/image_config.go:115-161 | a tag is pinned in its own repository to the digest served for it, and its text is the tag followed by that digest; a digest reference keeps its repository and digest |
| Images.ResolvesTo | pkg/binding/image_config.go:115-168 | an image resolves, and to which entry, exactly when there are keys, it parses as a digest or else as a tag, and the registry serves that reference; configuration and bills are those served |
| Images.TemplateIsPinned | pkg/binding/image_config.go:92-112 | all images of a template resolve exactly when each non-empty one can be served; then only images change, each to its own entry |
| Images.ConfigsAreServed | pkg/binding/image_config.go:94-105 | the metadata has one entry for each distinct non-empty image of both container lists, in string order, each with what is served for it |
| Images.ResolveImageMetadata | pkg/binding/image_config.go:87-113 | all or nothing: it fails exactly when some non-empty image cannot be served, and leaves the template alone; otherwise every image becomes that of its own served entry and the metadata lists one served entry for each; nothing for a nil template |
| Images.ResolveList | pkg/binding/image_config.go:93-106 | the metadata, the substitution and the errors gathered over the sorted images |
| Images.GetImagesSet | pkg/binding/image_config.go:59-68 | the images of both container lists |
| Images.UpdateSlice | pkg/binding/image_config.go:70-85 | each container's image is substituted once, in place |
| Images.ConfigsAreSorted | pkg/binding/image_config.go:96-105 | one entry for each distinct non-empty image, in increasing order |
| Images.PinnedImagesAreListed | pkg/binding/image_config.go:103-112 | every non-empty image of the resolved template is in the metadata list |
| CABundle.GetCABundle | pkg/controllers/podintent_reconciler.go:222-268 | fails exactly without eligible requests, otherwise joins the authorities of the three newest |
| CABundle.EligibleMeans | pkg/controllers/podintent_reconciler.go:229-248 | a request counts if its annotation names the certificate, it has an authority and a Ready condition that is True |
| CABundle.BundleMeans | pkg/controllers/podintent_reconciler.go:255-267 | the bundle is the authority of the newest, the newest two or the newest three requests, newest first |
| CABundle.EligiblesMembers | pkg/controllers/podintent_reconciler.go:229-249 | the requests considered are exactly the listed eligible ones |
| CABundle.KeptAreNewest | pkg/controllers/podintent_reconciler.go:255-265 | every kept request is at least as recent as every dropped one |
| CABundle.EligiblesPermute | pkg/controllers/podintent_reconciler.go:229-249 | each eligible request is considered as often as it is listed |
| CABundle.BundleIsOrderFree | pkg/controllers/podintent_reconciler.go:222-268 | with distinct timestamps among the eligible ones the look-up does not depend on the order of the listed requests |
| CABundle.OlderRequestIsIgnored | pkg/controllers/podintent_reconciler.go:222-268 | listing any further request that is not eligible, or is older than three eligible ones, changes nothing |
| Admission.ClusterPodConventionSpec.Default | pkg/apis/conventions/v1alpha1/clusterpodconvention_defaults.go:36-55 | priority, selector target and service port are defaulted in place |
| Admission.DefaultsMean | pkg/apis/conventions/v1alpha1/clusterpodconvention_defaults.go:36-55 | Normal, PodTemplateSpec and port 443 where nothing is given, and no other change |
| Admission.ClusterPodConventionSpec.Validate | pkg/apis/conventions/v1alpha1/clusterpodconvention_validation.go:54-82 | the errors are exactly the faults of the spec and those the library finds, none for acceptable specs; a panic exactly for a missing service port |
| Admission.FaultsMean | pkg/apis/conventions/v1alpha1/clusterpodconvention_validation.go:54-125 | when the library finds nothing, which errors are listed, kind by kind |
| Admission.ValidateWebhook | pkg/apis/conventions/v1alpha1/clusterpodconvention_validation.go:84-125 | lists exactly a wrong number of targets, missing names of a certificate, and what the library finds in the one target |
| Admission.DefaultIsSafe | pkg/apis/conventions/v1alpha1/clusterpodconvention_validation.go:119-121 | after defaulting, validation never dereferences a missing port; defaulting is idempotent |
| Admission.AdmissionSuffices | pkg/apis/conventions/v1alpha1/clusterpodconvention_validation.go:54-82 | admitted specs never break the filter and put the sort in its order domain |
| Reconciler.ResolveConventions | pkg/controllers/podintent_reconciler.go:97-132 | every source is defaulted and stashed with its authorities and without its target, or the condition is False |
| Reconciler.ResolveConvention | pkg/controllers/podintent_reconciler.go:106-129 | one source: missing authorities fail it |
| Reconciler.ResolvedMeans | pkg/controllers/podintent_reconciler.go:106-129 | name, selectors, priority or Normal, no target, and the address of the webhook with port 443 by default and its authorities |
| Reconciler.LacksMeans | pkg/controllers/podintent_reconciler.go:116-122 | authorities are missing when the list of the namespace fails or holds no eligible request |
| Reconciler.BuildRegistryConfig | pkg/controllers/podintent_reconciler.go:150-211 | registry access is stashed, or the condition is False, or a Go error without a client |
| Reconciler.ApplyConventionsReconciler | pkg/controllers/podintent_reconciler.go:273-307 | nothing after a False condition; otherwise filter, sort, apply and record |
| Reconciler.TargetsMean | pkg/controllers/podintent_reconciler.go:285-287 | PodIntent names the labels of the intent and PodTemplateSpec those of its template; no other name has labels |
| Reconciler.InitializeConditions | pkg/apis/conventions/v1alpha1/podintent_lifecycle.go:47-52 | both conditions restart as Unknown |
| Reconciler.Reconcile | pkg/controllers/podintent_reconciler.go:77-88 | the three sub-reconcilers in sequence relate old and new status by Step |
| ReconcileRuns.OutcomeIsDefinite | pkg/controllers/podintent_reconciler.go:94-132 | without a Go error the outcome is True or False, Ready agrees, and only success changes the status template |
| ReconcileRuns.StepReasons | pkg/controllers/podintent_reconciler.go:94-304 | which condition with which reason a reconcile ends with, for every way it can end; registry access needs the account of the intent, or default, and a keychain in its namespace |
| ReconcileRuns.RequestsOfReconcile | pkg/controllers/podintent_reconciler.go:298 | every request of a reconcile, from the template of the spec and the responses before it |
| ReconcileRuns.ResultOfReconcile | pkg/controllers/podintent_reconciler.go:298-304 | on success the status is the last response with the full receipt; a requeue without an unanswered call means an image that cannot be parsed or is not served |
| ReconcileRuns.CallsFollowThePlan | pkg/controllers/podintent_reconciler.go:289-304 | no call without authorities and registry; otherwise a prefix of the plan, all of it exactly when True; requeue exactly when applying failed |
| ReconcileRuns.CalledConventionsAreSelected | pkg/controllers/podintent_reconciler.go:285-298 | every webhook called belongs to a resolved convention that the filter selects |
| ReconcileRuns.AdmittedNeverBreak | pkg/controllers/podintent_reconciler.go:285-291 | where all conventions were admitted no reconcile ends with a selector error |
| ReconcileRuns.PlanIsOrderFree | pkg/binding/conventions.go:38-85 | permuted lists of resolved conventions have the same plan, in blocks by priority |
| ReconcileRuns.StatusIsOrderFree | pkg/controllers/podintent_reconciler.go:94-309 | two reconciles over clusters that list the same admitted conventions and certificate requests in different orders make the same calls and leave the same status |
| SelectorTargets.ResolvedMeetsNoLabels | pkg/controllers/podintent_reconciler.go:109-113 | a resolved convention is selected exactly when it has no selectors or one that asks for no label |
| SelectorTargets.PlanIsLabelFree | pkg/controllers/podintent_reconciler.go:285-298 | so the plan of a reconcile holds exactly the resolved conventions of such sources, whatever the labels are |
| SelectorTargets.PromiseIsKept | pkg/binding/conventions.go:58-67 | for one intent the documented selection is met if and only if the source is such a one just when a selector matches the labels of its target |
| SelectorTargets.PromiseIsAlwaysKept | pkg/binding/conventions.go:58-67 | an admitted source gets the documented selection on every intent if and only if it does on finitely many labels made of its own keys and values and one other value |
| SelectorTargets.PresenceIsAlwaysKept | pkg/binding/conventions.go:58-67 | with presence selectors this means that it has no selectors, or one that asks for no label, or none that can match |
| SelectorTargets.PromiseIsDropped | pkg/controllers/podintent_reconciler.go:109-113 | an admitted source whose promised convention is dropped |
| SelectorTargets.ExclusionIsIgnored | pkg/controllers/podintent_reconciler.go:109-113 | an admitted source whose convention is applied although its selector excludes the labels |
| ReconcileRuns.StatusIsLastGood | pkg/controllers/podintent_reconciler.go:270-309 | in every run over a changing cluster the status template is the result of the last successful reconcile, and Ready has the status of ConventionsApplied |
| ReconcileRuns.GoodTemplateStays | pkg/controllers/podintent_reconciler.go:298-304 | a run never loses its good template |
| Metrics.FamiliesNeverCollide | pkg/controllers/metrics_reconciler.go:136-150 | the keys of the data are all different |
| Metrics.CountSubjects | pkg/controllers/metrics_reconciler.go:114-135 | each counter is the number of intents with that status or owner text, which StatusesCount and OwnersCount count by position |
| Metrics.StatusesCount | pkg/controllers/metrics_reconciler.go:126-134 | how many intents are ready, failed, and neither |
| Metrics.OwnersCount | pkg/controllers/metrics_reconciler.go:119-123 | how many have a controller of a group and kind |
| Metrics.BuildConfigMapData | pkg/controllers/metrics_reconciler.go:114-152 | the data hold exactly the counters, the total and the sorted names, key by key as the next rows say |
| Metrics.ReadyCounters | pkg/controllers/metrics_reconciler.go:126-139 | podintents_ready_true_count is the number of intents whose Ready is True, and so on for false and for unknown; a key is there exactly when its number is positive |
| Metrics.OwnerCounter | pkg/controllers/metrics_reconciler.go:119-142 | podintents_owner_<kind.group>_count is the number of intents whose first controller has that group and kind |
| Metrics.FixedKeys | pkg/controllers/metrics_reconciler.go:143-150 | podintents_count is the number of intents, clusterpodconventions_names the names in string order |
| Metrics.NoOtherKeys | pkg/controllers/metrics_reconciler.go:136-151 | there are no other keys |
| Metrics.GroupKindMeans | pkg/controllers/metrics_reconciler.go:121 | an API version group/version yields kind.group; none, or more than one slash, the kind alone |
| Metrics.CountersAreConserved | pkg/controllers/metrics_reconciler.go:118-143 | the ready counters add up to the number of intents, the owner counters to those with a controller |
| Metrics.DataIsOrderFree | pkg/controllers/metrics_reconciler.go:114-152 | reordering either list leaves the data as it is |
| Metrics.ConfigMap.Reconcile | pkg/controllers/metrics_reconciler.go:63-112 | creates or updates the map only if its data differ; failing gets, lists and writes are errors and change nothing |
| Metrics.ReconcileAgain | pkg/controllers/metrics_reconciler.go:154-183 | a second reconcile with the same or reordered lists writes nothing, even if writes would fail |

## Left out

- SpringGuarantees.FloatGraceAgrees: says nothing of negative grace periods, which the API server rejects, and of 2^50 seconds and more.
- Metrics.ConfigMap.Reconcile: leaves out other writers of the same ConfigMap.
- Admission.ClusterPodConventionSpec.Validate: field paths, message texts and the order of errors; only which kinds are listed.
- Webhook and registry transport, TLS, JSON, SBOM and tar reading, image caches and keychains: foreign calls, abstracted as parameters.
- Label syntax: one flag of a selector stands for the character rules of its keys and values.
- Trackers, informers, observedGeneration, timestamps and messages of conditions: runtime and presentation.
- Fields of pods and containers that no modelled code reads or writes, and the difference between nil and empty maps outside certificate requests.
- The basic convention samples, the dumper, command-line entry points and generated code: only easy members.
