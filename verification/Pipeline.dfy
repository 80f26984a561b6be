/** Running the webhooks of a list of conventions over the template of a PodIntent. */
module Pipeline {
  import opened Wrappers
  import opened Text
  import opened Core
  import opened ConventionTypes
  import opened Images

  datatype Request = Request(name: string, imageConfig: seq<ImageConfig>, template: PodTemplate)

  datatype Response = Response(template: PodTemplate, applied: seq<string>)

  /** The outside world during one run: the registry before each webhook, and what the webhook
      of each position answers. Neither is assumed to stay the same or to behave. */
  datatype World = World(registry: nat -> Registry, webhook: (nat, Convention, Request) -> Option<Response>)

  /** One run: the world it meets, its registry access, the PodIntent's name, and the conventions in order. */
  datatype Job = Job(world: World, rc: RegistryConfig, intent: string, conventions: seq<Convention>)

  datatype Call = Call(convention: Convention, request: Request, response: Option<Response>)

  datatype Outcome = Outcome(result: Option<PodTemplate>, calls: seq<Call>)

  // ----- the receipt -----

  /** The history an annotation map records. */
  function ReadReceipt(annotations: map<string, string>): seq<string> {
    if APPLIED_CONVENTIONS !in annotations || annotations[APPLIED_CONVENTIONS] == "" then []
    else Split(annotations[APPLIED_CONVENTIONS], '\n')
  }

  function WriteReceipt(t: PodTemplate, history: seq<string>): PodTemplate {
    t.(annotations := t.annotations[APPLIED_CONVENTIONS := Join(history, '\n')])
  }

  function Labelled(convention: string, applied: seq<string>): seq<string> {
    if applied == [] then []
    else Labelled(convention, applied[..|applied| - 1]) + [convention + "/" + applied[|applied| - 1]]
  }

  /** Each name is recorded behind the name of its convention and a slash. */
  lemma {:induction false} LabelledAt(convention: string, applied: seq<string>)
    ensures |Labelled(convention, applied)| == |applied|
    ensures forall i | 0 <= i < |applied| :: Labelled(convention, applied)[i] == convention + "/" + applied[i]
  {
    if applied != [] {
      LabelledAt(convention, applied[..|applied| - 1]);
    }
  }

  /** The history is read from one annotation, and is empty without it. */
  lemma ReceiptReads(annotations: map<string, string>)
    ensures var key, history := "conventions.carto.run/applied-conventions", ReadReceipt(annotations);
      if key in annotations && annotations[key] != ""
      then history != [] && FreeOf(history, '\n') && Join(history, '\n') == annotations[key]
      else history == []
  {
    if ReadReceipt(annotations) != [] {
      SplitIsFree(annotations[APPLIED_CONVENTIONS], '\n');
      JoinSplit(annotations[APPLIED_CONVENTIONS], '\n');
    }
  }

  // ----- a run as a left fold -----

  /** The call of convention k: images are resolved first, then the webhook is asked. */
  ghost function CallAt(job: Job, k: nat, t: PodTemplate): Call
    requires k < |job.conventions|
  {
    var c := job.conventions[k];
    var registry := job.world.registry(k);
    var request := Request(job.intent + "-" + c.name, Configs(job.rc, registry, t), PinTemplate(job.rc, registry, t));
    Call(c, request, job.world.webhook(k, c, request))
  }

  function HistoryAfter(history: seq<string>, call: Call): seq<string>
    requires call.response.Some?
  {
    history + Labelled(call.convention.name, call.response.value.applied)
  }

  ghost function ApplyFrom(job: Job, k: nat, t: PodTemplate, history: seq<string>): Outcome
    requires k <= |job.conventions|
    decreases |job.conventions| - k
  {
    if k == |job.conventions| then Outcome(Some(t), [])
    else if !AllResolve(job.rc, job.world.registry(k), t) then Outcome(None, [])
    else
      var call := CallAt(job, k, t);
      if call.response.None? then Outcome(None, [call])
      else
        var longer := HistoryAfter(history, call);
        var rest := ApplyFrom(job, k + 1, WriteReceipt(call.response.value.template, longer), longer);
        Outcome(rest.result, [call] + rest.calls)
  }

  ghost function ApplyConventions(job: Job, t: PodTemplate): Outcome {
    ApplyFrom(job, 0, t, ReadReceipt(t.annotations))
  }

  // ----- what is known of every run -----

  /** The names the answered calls reported, prefixed by their convention, in call order. */
  function Receipts(calls: seq<Call>): seq<string> {
    if calls == [] then []
    else
      var first := calls[0];
      (if first.response.Some? then Labelled(first.convention.name, first.response.value.applied) else [])
      + Receipts(calls[1..])
  }

  /** Conventions are called in list order from position k, each at most once; all are called,
      and all answer, exactly when the run succeeds; only the last call may go unanswered. */
  ghost predicate IsTrace(job: Job, k: nat, o: Outcome) {
    var n := |o.calls|;
    && k + n <= |job.conventions|
    && (forall j | 0 <= j < n :: IsCall(job, k + j, o.calls[j]))
    && (forall j | 0 <= j < n - 1 :: o.calls[j].response.Some?)
    && (o.result.Some? <==> k + n == |job.conventions| && (n > 0 ==> o.calls[n - 1].response.Some?))
  }

  ghost predicate IsCall(job: Job, k: nat, call: Call)
    requires k < |job.conventions|
  {
    call.convention == job.conventions[k] && call.response == job.world.webhook(k, call.convention, call.request)
  }

  lemma ExtendTrace(job: Job, k: nat, call: Call, rest: Outcome)
    requires k < |job.conventions| && IsTrace(job, k + 1, rest)
    requires IsCall(job, k, call) && call.response.Some?
    ensures IsTrace(job, k, rest.(calls := [call] + rest.calls))
  {
    var calls := [call] + rest.calls;
    forall j | 0 <= j < |calls| ensures IsCall(job, k + j, calls[j]) {
      if j > 0 {
        assert calls[j] == rest.calls[j - 1];
        assert IsCall(job, k + 1 + (j - 1), rest.calls[j - 1]);
      }
    }
  }

  lemma {:induction false} CallsArePrefix(job: Job, k: nat, t: PodTemplate, history: seq<string>)
    requires k <= |job.conventions|
    ensures IsTrace(job, k, ApplyFrom(job, k, t, history))
    decreases |job.conventions| - k
  {
    if GoesOn(job, k, t) {
      var call := CallAt(job, k, t);
      var longer := HistoryAfter(history, call);
      var t' := WriteReceipt(call.response.value.template, longer);
      CallsArePrefix(job, k + 1, t', longer);
      ExtendTrace(job, k, call, ApplyFrom(job, k + 1, t', longer));
      RunStep(job, k, t, history);
    } else {
      LastTrace(job, k, t, history);
    }
  }

  lemma LastTrace(job: Job, k: nat, t: PodTemplate, history: seq<string>)
    requires k <= |job.conventions| && !GoesOn(job, k, t)
    ensures IsTrace(job, k, ApplyFrom(job, k, t, history))
  {
  }

  lemma ReceiptsExtend(history: seq<string>, call: Call, calls: seq<Call>)
    requires call.response.Some?
    ensures HistoryAfter(history, call) + Receipts(calls) == history + Receipts([call] + calls)
  {
    assert ([call] + calls)[1..] == calls;
  }

  /** The receipt of a successful run is the old history followed by what every convention
      reported, in call order, whatever the webhooks did to the annotation. */
  lemma {:induction false} ReceiptIsHistory(job: Job, k: nat, t: PodTemplate, history: seq<string>)
    requires k < |job.conventions| && ApplyFrom(job, k, t, history).result.Some?
    ensures var o := ApplyFrom(job, k, t, history);
      var annotations := o.result.value.annotations;
      "conventions.carto.run/applied-conventions" in annotations
      && annotations["conventions.carto.run/applied-conventions"] == Join(history + Receipts(o.calls), '\n')
    decreases |job.conventions| - k
  {
    var call := CallAt(job, k, t);
    var longer := HistoryAfter(history, call);
    var t' := WriteReceipt(call.response.value.template, longer);
    var rest := ApplyFrom(job, k + 1, t', longer);
    ReceiptsExtend(history, call, rest.calls);
    if k + 1 < |job.conventions| {
      ReceiptIsHistory(job, k + 1, t', longer);
    } else {
      assert longer + Receipts([]) == longer;
    }
  }

  ghost predicate NewlineFree(calls: seq<Call>) {
    forall j | 0 <= j < |calls| && calls[j].response.Some? ::
      '\n' !in calls[j].convention.name && FreeOf(calls[j].response.value.applied, '\n')
  }

  lemma {:induction false} LabelsAreFree(convention: string, applied: seq<string>)
    requires '\n' !in convention && FreeOf(applied, '\n')
    ensures FreeOf(Labelled(convention, applied), '\n')
  {
    if applied != [] {
      LabelsAreFree(convention, applied[..|applied| - 1]);
    }
  }

  lemma {:induction false} ReceiptsAreFree(calls: seq<Call>)
    requires NewlineFree(calls)
    ensures FreeOf(Receipts(calls), '\n')
  {
    if calls != [] {
      if calls[0].response.Some? {
        LabelsAreFree(calls[0].convention.name, calls[0].response.value.applied);
      }
      assert forall j | 0 <= j < |calls[1..]| :: calls[1..][j] == calls[j + 1];
      ReceiptsAreFree(calls[1..]);
    }
  }

  /** Splitting the receipt gives back exactly the history if and only if no name in it, prefixed by
      its convention, holds a newline. */
  lemma ReceiptReadsBack(job: Job, t: PodTemplate)
    requires ApplyConventions(job, t).result.Some?
    ensures var o := ApplyConventions(job, t);
      && (ReadReceipt(o.result.value.annotations) == ReadReceipt(t.annotations) + Receipts(o.calls)
          <==> FreeOf(Receipts(o.calls), '\n'))
      && (NewlineFree(o.calls) ==> FreeOf(Receipts(o.calls), '\n'))
  {
    var o := ApplyConventions(job, t);
    var history := ReadReceipt(t.annotations);
    if NewlineFree(o.calls) {
      ReceiptsAreFree(o.calls);
    }
    if job.conventions == [] {
      assert history + [] == history;
    } else {
      ReceiptIsHistory(job, 0, t, history);
      ReceiptsAreNotEmpty(o.calls);
      if FreeOf(Receipts(o.calls), '\n') {
        HistoryReadsBack(t.annotations, Receipts(o.calls));
      } else {
        ReadIsFree(o.result.value.annotations);
        NotFreeBehind(history, Receipts(o.calls));
      }
    }
  }

  lemma ReadIsFree(annotations: map<string, string>)
    ensures FreeOf(ReadReceipt(annotations), '\n')
  {
    if ReadReceipt(annotations) != [] {
      SplitIsFree(annotations[APPLIED_CONVENTIONS], '\n');
    }
  }

  lemma NotFreeBehind(history: seq<string>, receipts: seq<string>)
    requires !FreeOf(receipts, '\n')
    ensures !FreeOf(history + receipts, '\n')
  {
    var i :| 0 <= i < |receipts| && '\n' in receipts[i];
    assert (history + receipts)[|history| + i] == receipts[i];
  }

  lemma {:induction false} LabelsAreNotEmpty(convention: string, applied: seq<string>)
    ensures forall s | s in Labelled(convention, applied) :: s != ""
  {
    if applied != [] {
      LabelsAreNotEmpty(convention, applied[..|applied| - 1]);
    }
  }

  lemma {:induction false} ReceiptsAreNotEmpty(calls: seq<Call>)
    ensures forall s | s in Receipts(calls) :: s != ""
  {
    if calls != [] {
      if calls[0].response.Some? {
        LabelsAreNotEmpty(calls[0].convention.name, calls[0].response.value.applied);
      }
      ReceiptsAreNotEmpty(calls[1..]);
    }
  }

  lemma HistoryReadsBack(annotations: map<string, string>, receipts: seq<string>)
    requires FreeOf(receipts, '\n') && forall s | s in receipts :: s != ""
    ensures var all := ReadReceipt(annotations) + receipts;
      if Join(all, '\n') == "" then all == [] else Split(Join(all, '\n'), '\n') == all
  {
    var history := ReadReceipt(annotations);
    var all := history + receipts;
    if history != [] {
      SplitIsFree(annotations[APPLIED_CONVENTIONS], '\n');
      JoinSplit(annotations[APPLIED_CONVENTIONS], '\n');
    }
    if all != [] {
      SplitJoin(all, '\n');
      if receipts != [] {
        assert receipts[0] in receipts;
        if |all| == 1 {
          assert all[0] in receipts;
        } else {
          JoinIsLong(all);
        }
      } else {
        assert all == history;
      }
    }
  }

  lemma JoinIsLong(parts: seq<string>)
    requires |parts| > 1
    ensures Join(parts, '\n') != ""
  {
  }

  // ----- the run as a chain of requests and responses -----

  /** The template just before convention k + j is considered: the given one, or the last
      response with the receipt of everything applied so far written over its own. */
  function StateBefore(t: PodTemplate, history: seq<string>, calls: seq<Call>, j: nat): PodTemplate
    requires j <= |calls| && (j > 0 ==> calls[j - 1].response.Some?)
  {
    if j == 0 then t else WriteReceipt(calls[j - 1].response.value.template, history + Receipts(calls[..j]))
  }

  ghost predicate IsChain(job: Job, k: nat, t: PodTemplate, history: seq<string>, o: Outcome) {
    && IsTrace(job, k, o)
    && LinksHold(job, k, t, history, o.calls)
    && Ends(job, k, t, history, o.calls, o.result)
  }

  predicate AllAnswered(calls: seq<Call>) {
    |calls| > 0 ==> calls[|calls| - 1].response.Some?
  }

  /** With no call unanswered, the run ends in its last state or at a resolution that fails. */
  ghost predicate Ends(job: Job, k: nat, t: PodTemplate, history: seq<string>, calls: seq<Call>,
                       result: Option<PodTemplate>) {
    AllAnswered(calls) ==>
      var last := StateBefore(t, history, calls, |calls|);
      var next := k + |calls|;
      if result.Some? then result.value == last
      else next < |job.conventions| && !AllResolve(job.rc, job.world.registry(next), last)
  }

  /** The request of convention k for a template: its name, the template with every image pinned to what
      the registry of that moment serves, and the metadata of all its images, in order. */
  ghost predicate IsRequest(job: Job, k: nat, before: PodTemplate, q: Request)
    requires k < |job.conventions|
  {
    var names, registry := job.rc.names, job.world.registry(k);
    && q.name == job.intent + "-" + job.conventions[k].name
    && q.template == before.(initContainers := q.template.initContainers, containers := q.template.containers)
    && ArePinned(names, registry, before.initContainers, q.template.initContainers)
    && ArePinned(names, registry, before.containers, q.template.containers)
    && (exists images :: ListsImages(before, images) && HoldsServed(names, registry, images, q.imageConfig))
    && forall c | c in q.template.initContainers || c in q.template.containers ::
         c.image == "" || HasEntry(q.imageConfig, c.image)
  }

  predicate HasEntry(entries: seq<ImageConfig>, image: string) {
    exists entry :: entry in entries && entry.image == image
  }

  lemma CallIsRequest(job: Job, k: nat, before: PodTemplate)
    requires k < |job.conventions| && AllResolve(job.rc, job.world.registry(k), before)
    ensures IsRequest(job, k, before, CallAt(job, k, before).request)
  {
    var registry := job.world.registry(k);
    TemplateIsPinned(job.rc, registry, before);
    ConfigsAreServed(job.rc, registry, before);
    var u := PinTemplate(job.rc, registry, before);
    forall c | c in u.initContainers || c in u.containers
      ensures c.image == "" || HasEntry(Configs(job.rc, registry, before), c.image)
    {
      assert c.image in ImagesOf(u);
      if c.image != "" {
        PinnedImagesAreListed(job.rc, registry, before, c.image);
      }
    }
  }

  /** The j-th request shows the pinned images, their metadata and the receipt of its predecessors. */
  ghost predicate LinkHolds(job: Job, k: nat, t: PodTemplate, history: seq<string>, calls: seq<Call>, j: nat)
    requires j < |calls| && (j > 0 ==> calls[j - 1].response.Some?) && k + j < |job.conventions|
  {
    var before := StateBefore(t, history, calls, j);
    AllResolve(job.rc, job.world.registry(k + j), before) && calls[j] == CallAt(job, k + j, before)
  }

  lemma StateShift(t: PodTemplate, history: seq<string>, call: Call, calls: seq<Call>, j: nat)
    requires call.response.Some? && j <= |calls| && (j > 0 ==> calls[j - 1].response.Some?)
    ensures var longer := HistoryAfter(history, call);
      StateBefore(t, history, [call] + calls, j + 1)
      == StateBefore(WriteReceipt(call.response.value.template, longer), longer, calls, j)
  {
    assert ([call] + calls)[..j + 1] == [call] + calls[..j];
    ReceiptsExtend(history, call, calls[..j]);
    if j == 0 {
      assert HistoryAfter(history, call) + Receipts([]) == HistoryAfter(history, call);
    }
  }

  /** A run is exactly such a chain: every request follows from the previous response, the
      result is the last response with the full receipt, and a run that fails without an
      unanswered call fails at the next resolution. */
  lemma RunIsChain(job: Job, k: nat, t: PodTemplate, history: seq<string>)
    requires k <= |job.conventions|
    ensures IsChain(job, k, t, history, ApplyFrom(job, k, t, history))
    ensures var calls := ApplyFrom(job, k, t, history).calls;
      forall j | 0 <= j < |calls| :: RequestHolds(job, k, t, history, calls, j)
  {
    CallsArePrefix(job, k, t, history);
    RunLinks(job, k, t, history);
    RunEnds(job, k, t, history);
    LinksAreRequests(job, k, t, history, ApplyFrom(job, k, t, history).calls);
  }

  ghost predicate RequestHolds(job: Job, k: nat, t: PodTemplate, history: seq<string>, calls: seq<Call>, j: nat)
    requires j < |calls| && (j > 0 ==> calls[j - 1].response.Some?) && k + j < |job.conventions|
  {
    var before := StateBefore(t, history, calls, j);
    IsRequest(job, k + j, before, calls[j].request)
  }

  lemma LinksAreRequests(job: Job, k: nat, t: PodTemplate, history: seq<string>, calls: seq<Call>)
    requires LinksHold(job, k, t, history, calls)
    ensures forall j | 0 <= j < |calls| :: RequestHolds(job, k, t, history, calls, j)
  {
    forall j | 0 <= j < |calls| ensures RequestHolds(job, k, t, history, calls, j) {
      RequestOfLink(job, k, t, history, calls, j);
    }
  }

  lemma RequestOfLink(job: Job, k: nat, t: PodTemplate, history: seq<string>, calls: seq<Call>, j: nat)
    requires j < |calls| && (j > 0 ==> calls[j - 1].response.Some?) && k + j < |job.conventions|
    requires LinkHolds(job, k, t, history, calls, j)
    ensures RequestHolds(job, k, t, history, calls, j)
  {
    var before, at := StateBefore(t, history, calls, j), k + j;
    LinkIsRequest(job, at, before, calls[j]);
  }

  lemma LinkIsRequest(job: Job, k: nat, before: PodTemplate, call: Call)
    requires k < |job.conventions| && AllResolve(job.rc, job.world.registry(k), before)
    requires call == CallAt(job, k, before)
    ensures IsRequest(job, k, before, call.request)
  {
    CallIsRequest(job, k, before);
  }

  /** What each webhook of a run is asked about: the given template at first, and then the template of
      the previous response, its receipt replaced by that of everything applied so far. */
  lemma RequestFollowsResponse(job: Job, t: PodTemplate, j: nat) returns (before: PodTemplate)
    requires j < |ApplyConventions(job, t).calls|
    ensures j < |job.conventions| && IsRequest(job, j, before, ApplyConventions(job, t).calls[j].request)
    ensures Follows(t, ReadReceipt(t.annotations), ApplyConventions(job, t).calls, j, before)
  {
    var history, calls := ReadReceipt(t.annotations), ApplyConventions(job, t).calls;
    RunLinks(job, 0, t, history);
    before := LinkFollows(job, t, history, calls, j);
  }

  /** A successful run ends with the template that would be asked about next. */
  lemma ResultFollows(job: Job, t: PodTemplate)
    requires ApplyConventions(job, t).result.Some?
    ensures var o := ApplyConventions(job, t);
      && |o.calls| == |job.conventions|
      && Follows(t, ReadReceipt(t.annotations), o.calls, |o.calls|, o.result.value)
  {
    var history := ReadReceipt(t.annotations);
    CallsArePrefix(job, 0, t, history);
    RunEnds(job, 0, t, history);
  }

  /** A run fails for one of two reasons: the last webhook that was asked gave no answer, or of the template
      to be asked about next some image cannot be served. */
  lemma FailureMeans(job: Job, t: PodTemplate) returns (before: PodTemplate)
    requires ApplyConventions(job, t).result.None?
    ensures var calls := ApplyConventions(job, t).calls;
      AllAnswered(calls) ==>
        && |calls| < |job.conventions| && Follows(t, ReadReceipt(t.annotations), calls, |calls|, before)
        && !AllServed(job.rc, job.world.registry(|calls|), before)
  {
    var history, calls := ReadReceipt(t.annotations), ApplyConventions(job, t).calls;
    before := t;
    RunEnds(job, 0, t, history);
    if AllAnswered(calls) {
      before := StateBefore(t, history, calls, |calls|);
      TemplateIsPinned(job.rc, job.world.registry(|calls|), before);
    }
  }

  ghost predicate AllServed(rc: RegistryConfig, registry: Registry, t: PodTemplate) {
    forall c | c in t.initContainers || c in t.containers :: c.image == "" || CanBeServed(rc, registry, c.image)
  }

  ghost predicate Follows(t: PodTemplate, history: seq<string>, calls: seq<Call>, j: nat, before: PodTemplate)
    requires j <= |calls|
  {
    if j == 0 then before == t
    else
      && calls[j - 1].response.Some?
      && var previous := calls[j - 1].response.value.template;
         var receipt := Join(history + Receipts(calls[..j]), '\n');
         before == previous.(
           annotations := previous.annotations["conventions.carto.run/applied-conventions" := receipt])
  }

  lemma LinkFollows(job: Job, t: PodTemplate, history: seq<string>, calls: seq<Call>, j: nat)
    returns (before: PodTemplate)
    requires LinksHold(job, 0, t, history, calls) && j < |calls|
    ensures IsRequest(job, j, before, calls[j].request) && Follows(t, history, calls, j, before)
  {
    assert j > 0 ==> calls[j - 1].response.Some?;
    before := StateBefore(t, history, calls, j);
    assert LinkHolds(job, 0, t, history, calls, j);
    LinkIsRequest(job, j, before, calls[j]);
  }

  lemma {:induction false} RunLinks(job: Job, k: nat, t: PodTemplate, history: seq<string>)
    requires k <= |job.conventions|
    ensures LinksHold(job, k, t, history, ApplyFrom(job, k, t, history).calls)
    decreases |job.conventions| - k
  {
    if k < |job.conventions| && AllResolve(job.rc, job.world.registry(k), t) {
      var call := CallAt(job, k, t);
      assert LinkHolds(job, k, t, history, [call], 0);
      if call.response.Some? {
        var longer := HistoryAfter(history, call);
        var t' := WriteReceipt(call.response.value.template, longer);
        RunLinks(job, k + 1, t', longer);
        ExtendLinks(job, k, t, history, call, ApplyFrom(job, k + 1, t', longer).calls);
      }
    }
  }

  /** The run goes on after convention k. */
  ghost predicate GoesOn(job: Job, k: nat, t: PodTemplate) {
    k < |job.conventions| && AllResolve(job.rc, job.world.registry(k), t) && CallAt(job, k, t).response.Some?
  }

  lemma RunStep(job: Job, k: nat, t: PodTemplate, history: seq<string>)
    requires GoesOn(job, k, t)
    ensures var call := CallAt(job, k, t);
      var longer := HistoryAfter(history, call);
      var rest := ApplyFrom(job, k + 1, WriteReceipt(call.response.value.template, longer), longer);
      ApplyFrom(job, k, t, history) == Outcome(rest.result, [call] + rest.calls)
  {
  }

  lemma RunStops(job: Job, k: nat, t: PodTemplate, history: seq<string>)
    requires k <= |job.conventions| && !GoesOn(job, k, t)
    ensures Ends(job, k, t, history, ApplyFrom(job, k, t, history).calls, ApplyFrom(job, k, t, history).result)
  {
  }

  lemma {:induction false} RunEnds(job: Job, k: nat, t: PodTemplate, history: seq<string>)
    requires k <= |job.conventions|
    ensures Ends(job, k, t, history, ApplyFrom(job, k, t, history).calls, ApplyFrom(job, k, t, history).result)
    decreases |job.conventions| - k
  {
    if GoesOn(job, k, t) {
      var call := CallAt(job, k, t);
      var longer := HistoryAfter(history, call);
      var t' := WriteReceipt(call.response.value.template, longer);
      var rest := ApplyFrom(job, k + 1, t', longer);
      RunEnds(job, k + 1, t', longer);
      ExtendEnd(job, k, t, history, call, rest.calls, rest.result);
      RunStep(job, k, t, history);
    } else {
      RunStops(job, k, t, history);
    }
  }

  ghost predicate LinksHold(job: Job, k: nat, t: PodTemplate, history: seq<string>, calls: seq<Call>) {
    && k + |calls| <= |job.conventions|
    && (forall j | 0 <= j < |calls| - 1 :: calls[j].response.Some?)
    && (forall j | 0 <= j < |calls| :: LinkHolds(job, k, t, history, calls, j))
  }

  lemma ExtendLinks(job: Job, k: nat, t: PodTemplate, history: seq<string>, call: Call, rest: seq<Call>)
    requires k + 1 + |rest| <= |job.conventions| && call.response.Some?
    requires LinkHolds(job, k, t, history, [call], 0)
    requires var longer := HistoryAfter(history, call);
      LinksHold(job, k + 1, WriteReceipt(call.response.value.template, longer), longer, rest)
    ensures LinksHold(job, k, t, history, [call] + rest)
  {
    var longer := HistoryAfter(history, call);
    var t' := WriteReceipt(call.response.value.template, longer);
    var calls := [call] + rest;
    forall j | 0 <= j < |calls| ensures j < |calls| - 1 ==> calls[j].response.Some? {
      if j > 0 { assert calls[j] == rest[j - 1]; }
    }
    forall j | 0 <= j < |calls| ensures LinkHolds(job, k, t, history, calls, j) {
      if j > 0 {
        assert j - 1 > 0 ==> rest[j - 2].response.Some?;
        StateShift(t, history, call, rest, j - 1);
        assert LinkHolds(job, k + 1, t', longer, rest, j - 1);
      }
    }
  }

  lemma ExtendEnd(job: Job, k: nat, t: PodTemplate, history: seq<string>, call: Call, rest: seq<Call>,
                  result: Option<PodTemplate>)
    requires call.response.Some?
    requires var longer := HistoryAfter(history, call);
      Ends(job, k + 1, WriteReceipt(call.response.value.template, longer), longer, rest, result)
    ensures Ends(job, k, t, history, [call] + rest, result)
  {
    AnsweredTail(call, rest);
    if AllAnswered(rest) {
      StateShift(t, history, call, rest, |rest|);
    }
  }

  lemma AnsweredTail(call: Call, rest: seq<Call>)
    requires call.response.Some?
    ensures AllAnswered([call] + rest) <==> AllAnswered(rest)
  {
    assert |rest| > 0 ==> ([call] + rest)[|rest|] == rest[|rest| - 1];
  }

  /** Without conventions the template comes back as it was: not even its images are resolved. */
  lemma NoConventions(job: Job, t: PodTemplate)
    requires job.conventions == []
    ensures ApplyConventions(job, t) == Outcome(Some(t), [])
  {
  }

  // ----- digest pinning -----

  /** The image of one container, by list and position. */
  function SlotImage(t: PodTemplate, init: bool, x: nat): string {
    var list := if init then t.initContainers else t.containers;
    if x < |list| then list[x].image else ""
  }

  /** No answered webhook rewrote the image of the slot. */
  predicate Untouched(calls: seq<Call>, init: bool, x: nat) {
    forall j | 0 <= j < |calls| && calls[j].response.Some? ::
      SlotImage(calls[j].response.value.template, init, x) == SlotImage(calls[j].request.template, init, x)
  }

  ghost predicate PinnedTo(names: NameLibrary, calls: seq<Call>, init: bool, x: nat, r: Reference) {
    forall j | 0 <= j < |calls| :: Pin(names, SlotImage(calls[j].request.template, init, x)) == Some(r)
  }

  /** The first call pins the slot, and keeps its pin if it has one. */
  lemma CallPins(job: Job, k: nat, t: PodTemplate, init: bool, x: nat)
    requires k < |job.conventions| && Lawful(job.rc.names) && ServesDigests(job.world.registry(k))
    requires AllResolve(job.rc, job.world.registry(k), t) && SlotImage(t, init, x) != ""
    ensures var image := SlotImage(CallAt(job, k, t).request.template, init, x);
      var pin := Pin(job.rc.names, image);
      && image != "" && pin.Some?
      && (Pin(job.rc.names, SlotImage(t, init, x)).Some? ==> pin == Pin(job.rc.names, SlotImage(t, init, x)))
  {
    SlotResolves(job.rc, job.world.registry(k), t, init, x);
    ResolutionPins(job.rc, job.world.registry(k), SlotImage(t, init, x));
    PinIsNotEmpty(job.rc, job.world.registry(k), SlotImage(t, init, x));
  }

  lemma UntouchedTail(call: Call, rest: seq<Call>, init: bool, x: nat)
    requires Untouched([call] + rest, init, x) && call.response.Some?
    ensures Untouched(rest, init, x)
    ensures SlotImage(call.response.value.template, init, x) == SlotImage(call.request.template, init, x)
  {
    var calls := [call] + rest;
    assert calls[0] == call;
    assert forall j | 0 <= j < |rest| :: rest[j] == calls[j + 1];
  }

  ghost predicate DigestsFrom(job: Job, k: nat) {
    forall n | k <= n < |job.conventions| :: ServesDigests(job.world.registry(n))
  }

  /** The slot keeps the pin it has, or the one it is given by the first call. */
  ghost predicate KeepsPin(names: NameLibrary, t: PodTemplate, calls: seq<Call>, init: bool, x: nat) {
    && (calls != [] ==> exists r :: PinnedTo(names, calls, init, x, r))
    && (Pin(names, SlotImage(t, init, x)).Some? ==>
          PinnedTo(names, calls, init, x, Pin(names, SlotImage(t, init, x)).value))
  }

  lemma ExtendPins(names: NameLibrary, t: PodTemplate, call: Call, rest: seq<Call>, init: bool, x: nat, r: Reference)
    requires Pin(names, SlotImage(call.request.template, init, x)) == Some(r)
    requires Pin(names, SlotImage(t, init, x)).Some? ==> Pin(names, SlotImage(t, init, x)) == Some(r)
    requires rest == [] || PinnedTo(names, rest, init, x, r)
    ensures KeepsPin(names, t, [call] + rest, init, x)
  {
    assert PinnedTo(names, [call] + rest, init, x, r);
  }

  /** All webhooks of a run see the same repository and digest for a container whose image no
      convention rewrites, however the registry moves its tags between the calls. */
  lemma {:induction false} PinsStayFixed(job: Job, k: nat, t: PodTemplate, history: seq<string>, init: bool, x: nat)
    requires k <= |job.conventions| && Lawful(job.rc.names) && DigestsFrom(job, k)
    requires SlotImage(t, init, x) != ""
    requires Untouched(ApplyFrom(job, k, t, history).calls, init, x)
    ensures KeepsPin(job.rc.names, t, ApplyFrom(job, k, t, history).calls, init, x)
    decreases |job.conventions| - k
  {
    if GoesOn(job, k, t) {
      var call := CallAt(job, k, t);
      var longer := HistoryAfter(history, call);
      var t' := WriteReceipt(call.response.value.template, longer);
      var rest := ApplyFrom(job, k + 1, t', longer).calls;
      RunStep(job, k, t, history);
      assert SlotImage(t', init, x) == SlotImage(call.request.template, init, x) != "" by {
        CallPins(job, k, t, init, x);
        UntouchedTail(call, rest, init, x);
      }
      assert Untouched(rest, init, x) by {
        UntouchedTail(call, rest, init, x);
      }
      PinsStayFixed(job, k + 1, t', longer, init, x);
      PinsGoOn(job, k, t, rest, t', init, x);
    } else {
      LastCallPins(job, k, t, history, init, x);
    }
  }

  lemma PinsGoOn(job: Job, k: nat, t: PodTemplate, rest: seq<Call>, next: PodTemplate, init: bool, x: nat)
    requires Lawful(job.rc.names) && DigestsFrom(job, k) && GoesOn(job, k, t) && SlotImage(t, init, x) != ""
    requires SlotImage(next, init, x) == SlotImage(CallAt(job, k, t).request.template, init, x)
    requires KeepsPin(job.rc.names, next, rest, init, x)
    ensures KeepsPin(job.rc.names, t, [CallAt(job, k, t)] + rest, init, x)
  {
    CallPins(job, k, t, init, x);
    var r := Pin(job.rc.names, SlotImage(next, init, x)).value;
    ExtendPins(job.rc.names, t, CallAt(job, k, t), rest, init, x, r);
  }

  lemma LastCallPins(job: Job, k: nat, t: PodTemplate, history: seq<string>, init: bool, x: nat)
    requires k <= |job.conventions| && Lawful(job.rc.names) && DigestsFrom(job, k)
    requires SlotImage(t, init, x) != "" && !GoesOn(job, k, t)
    ensures KeepsPin(job.rc.names, t, ApplyFrom(job, k, t, history).calls, init, x)
  {
    var calls := ApplyFrom(job, k, t, history).calls;
    if calls != [] {
      CallPins(job, k, t, init, x);
      assert calls == [calls[0]] + [];
      var r := Pin(job.rc.names, SlotImage(calls[0].request.template, init, x)).value;
      ExtendPins(job.rc.names, t, calls[0], [], init, x, r);
    }
  }

  // ----- which images of the result are pinned -----

  /** The images of the result are those of the last response, which nothing resolves any more;
      without conventions they are those of the given template. */
  lemma ResultImages(job: Job, t: PodTemplate, init: bool, x: nat)
    requires ApplyConventions(job, t).result.Some?
    ensures var o := ApplyConventions(job, t);
      |o.calls| == |job.conventions| && AllAnswered(o.calls)
      && SlotImage(o.result.value, init, x) ==
           if o.calls == [] then SlotImage(t, init, x)
           else SlotImage(o.calls[|o.calls| - 1].response.value.template, init, x)
  {
    CallsArePrefix(job, 0, t, ReadReceipt(t.annotations));
    RunEnds(job, 0, t, ReadReceipt(t.annotations));
  }

  /** Nothing resolves what the last convention answers: the result has the image of the last
      response, whatever it names. It is pinned, as it is in the last request, when that response
      leaves it as requested. */
  lemma ResultIsPinned(job: Job, t: PodTemplate, init: bool, x: nat)
    requires ApplyConventions(job, t).result.Some? && job.conventions != []
    requires Lawful(job.rc.names) && DigestsFrom(job, 0)
    ensures |ApplyConventions(job, t).calls| == |job.conventions| && AllAnswered(ApplyConventions(job, t).calls)
    ensures var o := ApplyConventions(job, t);
      var last := o.calls[|o.calls| - 1];
      var requested := SlotImage(last.request.template, init, x);
      var answered := SlotImage(last.response.value.template, init, x);
      && SlotImage(o.result.value, init, x) == answered
      && (requested != "" ==> Pin(job.rc.names, requested).Some?)
      && (answered == requested != "" ==> Pin(job.rc.names, SlotImage(o.result.value, init, x)).Some?)
  {
    var calls, history := ApplyConventions(job, t).calls, ReadReceipt(t.annotations);
    ResultImages(job, t, init, x);
    RunLinks(job, 0, t, history);
    var n := |calls| - 1;
    assert LinkHolds(job, 0, t, history, calls, n);
    if SlotImage(calls[n].request.template, init, x) != "" {
      var before := StateBefore(t, history, calls, n);
      RequestIsPinned(job, n, before, init, x);
    }
  }

  lemma RequestIsPinned(job: Job, k: nat, before: PodTemplate, init: bool, x: nat)
    requires k < |job.conventions| && Lawful(job.rc.names) && ServesDigests(job.world.registry(k))
    requires AllResolve(job.rc, job.world.registry(k), before)
    requires SlotImage(CallAt(job, k, before).request.template, init, x) != ""
    ensures Pin(job.rc.names, SlotImage(CallAt(job, k, before).request.template, init, x)).Some?
  {
    if SlotImage(before, init, x) != "" {
      CallPins(job, k, before, init, x);
    } else {
      EmptySlotStays(job.rc, job.world.registry(k), before, init, x);
    }
  }

  lemma EmptySlotStays(rc: RegistryConfig, registry: Registry, t: PodTemplate, init: bool, x: nat)
    requires SlotImage(t, init, x) == ""
    ensures SlotImage(PinTemplate(rc, registry, t), init, x) == ""
  {
  }

  /** An image that no convention rewrites reaches the result with the repository and digest that
      all webhooks saw. */
  lemma ResultKeepsPin(job: Job, t: PodTemplate, init: bool, x: nat)
    requires ApplyConventions(job, t).result.Some? && job.conventions != []
    requires Lawful(job.rc.names) && DigestsFrom(job, 0)
    requires SlotImage(t, init, x) != "" && Untouched(ApplyConventions(job, t).calls, init, x)
    ensures var o := ApplyConventions(job, t);
      exists r :: PinnedTo(job.rc.names, o.calls, init, x, r)
        && Pin(job.rc.names, SlotImage(o.result.value, init, x)) == Some(r)
  {
    var calls := ApplyConventions(job, t).calls;
    ResultImages(job, t, init, x);
    PinsStayFixed(job, 0, t, ReadReceipt(t.annotations), init, x);
    var r :| PinnedTo(job.rc.names, calls, init, x, r);
    var n := |calls| - 1;
    assert Pin(job.rc.names, SlotImage(calls[n].request.template, init, x)) == Some(r);
    assert SlotImage(calls[n].response.value.template, init, x) == SlotImage(calls[n].request.template, init, x);
  }

  /** A convention that answers every request with the same template. */
  function Answering(t: PodTemplate): World {
    World(k => reference => None, (k, convention, request) => Some(Response(t, [])))
  }

  function LateTagJob(c: Convention): Job {
    Job(Answering(TaggedTemplate()), RegistryConfig(true, NameLibrary(SampleDigest, SampleTag)), "web", [c])
  }

  /** So a digest in the result is no matter of course: the last convention may write a tag. */
  lemma LateTagStays(c: Convention)
    ensures var job := LateTagJob(c);
      var o := ApplyConventions(job, EmptyTemplate());
      o.result.Some? && SlotImage(o.result.value, false, 0) == "web:2"
      && Pin(job.rc.names, SlotImage(o.result.value, false, 0)).None?
  {
    var job := LateTagJob(c);
    var t := EmptyTemplate();
    assert AllResolve(job.rc, job.world.registry(0), t);
    assert GoesOn(job, 0, t);
    RunStep(job, 0, t, []);
    assert Tail("web:2", '@') == "" by {
      HeadFacts("web:2", '@');
      CutNothing("web:2", '@');
    }
  }

  lemma {:induction false} CutNothing(s: string, c: char)
    requires c !in s
    ensures Tail(s, c) == ""
  {
    if s != "" {
      CutNothing(s[1..], c);
    }
  }

  function EmptyTemplate(): PodTemplate {
    PodTemplate(map[], map[], None, [], [])
  }

  function TaggedTemplate(): PodTemplate {
    EmptyTemplate().(containers := [Container("web", "web:2", [], [], None, None, None)])
  }

  lemma SlotResolves(rc: RegistryConfig, registry: Registry, t: PodTemplate, init: bool, x: nat)
    requires AllResolve(rc, registry, t) && SlotImage(t, init, x) != ""
    ensures ResolveImage(rc, registry, SlotImage(t, init, x)).Some?
    ensures SlotImage(PinTemplate(rc, registry, t), init, x)
         == ResolveImage(rc, registry, SlotImage(t, init, x)).value.image
  {
    var list := if init then t.initContainers else t.containers;
    assert list[x] in list;
    assert SlotImage(t, init, x) in ImagesOf(t);
  }

  lemma PinIsNotEmpty(rc: RegistryConfig, registry: Registry, image: string)
    requires ResolveImage(rc, registry, image).Some?
    ensures ResolveImage(rc, registry, image).value.image != ""
  {
  }
}
