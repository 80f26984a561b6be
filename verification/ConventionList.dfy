/** The convention list of the binding package: filtered, sorted in place, and applied. */
module ConventionLists {
  import opened Wrappers
  import opened Text
  import opened Sorting
  import opened Core
  import opened Selectors
  import opened ConventionTypes
  import opened Images
  import opened Conventions
  import opened Pipeline

  ghost function AfterCalls(calls: seq<Call>, rest: Outcome): Outcome {
    Outcome(rest.result, calls + rest.calls)
  }

  lemma AfterOneCall(job: Job, k: nat, t: PodTemplate, history: seq<string>, calls: seq<Call>)
    requires GoesOn(job, k, t)
    ensures var call := CallAt(job, k, t);
      var longer := HistoryAfter(history, call);
      AfterCalls(calls, ApplyFrom(job, k, t, history))
      == AfterCalls(calls + [call], ApplyFrom(job, k + 1, WriteReceipt(call.response.value.template, longer), longer))
  {
    RunStep(job, k, t, history);
  }

  lemma AfterLastCall(job: Job, t: PodTemplate, history: seq<string>, calls: seq<Call>)
    ensures AfterCalls(calls, ApplyFrom(job, |job.conventions|, t, history)) == Outcome(Some(t), calls)
  {
    assert calls + [] == calls;
  }

  lemma AfterFailure(job: Job, k: nat, t: PodTemplate, history: seq<string>, calls: seq<Call>)
    requires k < |job.conventions| && !GoesOn(job, k, t)
    ensures AfterCalls(calls, ApplyFrom(job, k, t, history))
      == Outcome(None, if AllResolve(job.rc, job.world.registry(k), t) then calls + [CallAt(job, k, t)] else calls)
  {
    assert calls + [] == calls;
  }

  class ConventionList {
    var items: seq<Convention>

    constructor (items: seq<Convention>)
      ensures this.items == items
    {
      this.items := items;
    }

    /** Sort: the list itself is sorted and returned. */
    method Sort() returns (r: ConventionList)
      modifies this
      ensures r == this && SortedCopy(Before, old(items), items)
      ensures (forall c | c in old(items) :: LegalPriority(c)) && NamesDiffer(old(items)) ==> InBlocks(items)
    {
      items := SortSlice(Before, items);
      SortedInBlocks(old(items), items);
      r := this;
    }

    method FilterAndSort(collected: map<string, Labels>) returns (r: Option<ConventionList>)
      ensures r.None? <==> exists i :: 0 <= i < |items| && Broken(items[i], collected)
      ensures r.Some? ==> fresh(r.value) && SortedCopy(Before, Selection(items, collected), r.value.items)
    {
      var filtered := Filter(items, collected);
      if filtered.None? {
        return None;
      }
      var filteredConventions := new ConventionList(filtered.value);
      var sorted := filteredConventions.Sort();
      return Some(sorted);
    }

    /** Apply: the workload starts as a struct that shares the container slices of the parent,
        so the first digest update writes through to the parent; every later one works on the
        template of a response. `calls` records the webhooks that were asked. */
    method Apply(parent: PodIntent?, world: World, rc: RegistryConfig) returns (r: Option<PodTemplateSpec>,
                 calls: seq<Call>)
      requires parent != null ==> parent.template.Valid()
      modifies if parent == null then {} else {parent.template.initContainers, parent.template.containers}
      ensures parent == null ==> r.None? && calls == []
      ensures parent != null ==>
        var t := old(parent.template.View());
        var o := ApplyConventions(Job(world, rc, parent.name, items), t);
        && calls == o.calls
        && (r.Some? <==> o.result.Some?)
        && (r.Some? ==> r.value.View() == o.result.value)
        && parent.template.View() ==
             if items != [] && AllResolve(rc, world.registry(0), t) then PinTemplate(rc, world.registry(0), t) else t
    {
      calls := [];
      if parent == null {
        return None, calls;
      }
      var workload := new PodTemplateSpec.AsPodTemplateSpec(parent.template);
      var appliedConventions: seq<string> := [];
      if APPLIED_CONVENTIONS in workload.annotations && workload.annotations[APPLIED_CONVENTIONS] != "" {
        appliedConventions := Split(workload.annotations[APPLIED_CONVENTIONS], '\n');
      }
      assert appliedConventions == ReadReceipt(workload.annotations);
      r, calls := CallWebhooks(world, rc, parent.name, items, workload, appliedConventions);
    }
  }

  /** The part of the first template that the run may have pinned. */
  ghost function PinnedAtFirst(job: Job, t: PodTemplate): PodTemplate {
    if job.conventions != [] && AllResolve(job.rc, job.world.registry(0), t)
    then PinTemplate(job.rc, job.world.registry(0), t) else t
  }

  /** Of the caller's template a run touches images only: each becomes the resolution of its old
      text in the first turn, and nothing changes when there is no first turn. */
  lemma FirstPinTouchesImagesOnly(job: Job, t: PodTemplate)
    ensures var u := PinnedAtFirst(job, t);
      && u == t.(initContainers := u.initContainers, containers := u.containers)
      && OnlyImagesDiffer(job, t.initContainers, u.initContainers)
      && OnlyImagesDiffer(job, t.containers, u.containers)
      && (job.conventions == [] || !AllResolve(job.rc, job.world.registry(0), t) ==> u == t)
  {
    forall i | 0 <= i < |t.initContainers| ensures t.initContainers[i].image in ImagesOf(t) {
      assert t.initContainers[i] in t.initContainers;
    }
    forall i | 0 <= i < |t.containers| ensures t.containers[i].image in ImagesOf(t) {
      assert t.containers[i] in t.containers;
    }
  }

  ghost predicate OnlyImagesDiffer(job: Job, before: seq<Container>, after: seq<Container>) {
    |after| == |before|
    && forall i | 0 <= i < |before| ::
         after[i] == before[i]
         || (before[i].image != "" && var r := ResolveImage(job.rc, job.world.registry(0), before[i].image);
             r.Some? && after[i] == before[i].(image := r.value.image))
  }

  /** The loop of Apply, over a workload whose slices belong to the caller. */
  method CallWebhooks(world: World, rc: RegistryConfig, intent: string, conventions: seq<Convention>,
                      shared: PodTemplateSpec, history: seq<string>)
    returns (r: Option<PodTemplateSpec>, calls: seq<Call>)
    requires shared.Valid()
    modifies shared.initContainers, shared.containers
    ensures var job := Job(world, rc, intent, conventions);
      var t := old(shared.View());
      var o := ApplyFrom(job, 0, t, history);
      && calls == o.calls
      && (r.Some? <==> o.result.Some?)
      && (r.Some? ==> r.value.View() == o.result.value)
      && shared.View() == PinnedAtFirst(job, t)
  {
    ghost var job := Job(world, rc, intent, conventions);
    ghost var t := shared.View();
    ghost var pinned := PinnedAtFirst(job, t);
    ghost var whole := ApplyFrom(job, 0, t, history);
    var workload := shared;
    var appliedConventions := history;
    calls := [];
    for k := 0 to |conventions|
      invariant workload.Valid() && workload.View() == t
      invariant whole == AfterCalls(calls, ApplyFrom(job, k, t, appliedConventions))
      invariant k == 0 ==> workload == shared && shared.View() == old(shared.View())
      invariant k > 0 ==> shared.View() == pinned
      invariant k > 0 ==> fresh(workload) && fresh(workload.initContainers) && fresh(workload.containers)
    {
      var enriched, call, longer :=
        CallConvention(world, rc, intent, conventions[k], k, workload, appliedConventions, job);
      if enriched.None? {
        AfterFailure(job, k, t, appliedConventions, calls);
        calls := calls + if call.Some? then [call.value] else [];
        return None, calls;
      }
      assert whole == AfterCalls(calls + [call.value], ApplyFrom(job, k + 1, enriched.value.View(), longer)) by {
        AfterOneCall(job, k, t, appliedConventions, calls);
      }
      workload := enriched.value;
      calls, appliedConventions, t := calls + [call.value], longer, workload.View();
    }
    AfterLastCall(job, t, appliedConventions, calls);
    return Some(workload), calls;
  }

  /** One turn of the loop: pin the workload's images in place, then ask the webhook, whose answer
      is decoded into a template of its own, and write the receipt of all names so far into it. */
  method CallConvention(world: World, rc: RegistryConfig, intent: string, convention: Convention, k: nat,
                        workload: PodTemplateSpec, history: seq<string>, ghost job: Job)
    returns (enriched: Option<PodTemplateSpec>, call: Option<Call>, longer: seq<string>)
    requires workload.Valid()
    requires job.world == world && job.rc == rc && job.intent == intent
    requires k < |job.conventions| && job.conventions[k] == convention
    modifies workload.initContainers, workload.containers
    ensures var t := old(workload.View());
      && call == (if AllResolve(rc, world.registry(k), t) then Some(CallAt(job, k, t)) else None)
      && (enriched.Some? <==> GoesOn(job, k, t))
      && workload.View() == if AllResolve(rc, world.registry(k), t) then PinTemplate(rc, world.registry(k), t) else t
    ensures enriched.Some? ==>
      && call.Some? && call.value.response.Some? && longer == HistoryAfter(history, call.value)
      && enriched.value.Valid() && enriched.value.View() == WriteReceipt(call.value.response.value.template, longer)
      && fresh(enriched.value) && fresh(enriched.value.initContainers) && fresh(enriched.value.containers)
  {
    longer := history;
    var imageConfigList, failed := ResolveImageMetadata(rc, world.registry(k), workload);
    if failed {
      return None, None, longer;
    }
    var request := Request(intent + "-" + convention.name, imageConfigList, workload.View());
    var response := world.webhook(k, convention, request);
    call := Some(Call(convention, request, response));
    if response.None? {
      return None, call, longer;
    }
    var decoded := new PodTemplateSpec.Decode(response.value.template);
    longer := AppendLabelled(history, convention.name, response.value.applied);
    decoded.annotations := decoded.annotations[APPLIED_CONVENTIONS := Join(longer, '\n')];
    return Some(decoded), call, longer;
  }

  /** The names of one response, prefixed by their convention, behind the history. */
  method AppendLabelled(history: seq<string>, convention: string, applied: seq<string>) returns (longer: seq<string>)
    ensures longer == history + Labelled(convention, applied)
  {
    longer := history;
    for n := 0 to |applied|
      invariant longer == history + Labelled(convention, applied[..n])
    {
      assert applied[..n + 1][..n] == applied[..n];
      longer := longer + [convention + "/" + applied[n]];
    }
    assert applied[..|applied|] == applied;
  }
}
