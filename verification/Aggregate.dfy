/** The workflow aggregate: a fold over the log (Apply) and the decision
    function (Decide). AggState and the functions on it are the
    specification; class WorkflowAggregate is the object the engine mutates. */
module Aggregate {
  import opened Events
  import opened WorkflowGraph

  datatype Status = Requested | Running | Completed | Failed | WasCancelled | Paused

  datatype CachedVerdict = CachedVerdict(sourcePersona: Persona, rawDiagnostics: string)

  /** What verdictFingerprint identifies: the summary and the bag of issue
      descriptions, in whatever order they were listed. */
  datatype Fingerprint = Fingerprint(summary: string, descriptions: multiset<string>)

  datatype AggState = AggState(
    id: string,
    version: int,
    status: Status,
    def: Option<WorkflowDef>,
    completed: set<Persona>,
    skipped: set<Persona>,
    feedbackCount: map<Persona, nat>,
    feedbackPending: map<Persona, Persona>,
    autoRetries: map<Persona, nat>,
    tokensUsed: int,
    maxIterations: int,
    workflowID: string,
    lastFingerprint: map<string, Fingerprint>,
    lastFailing: map<Persona, CachedVerdict>,
    retarget: Persona,
    retargetSource: Persona,
    retryFromPhase: Persona)

  const MaxAutoRetriesPerPersona := 1

  function NewAggregate(id: string): AggState {
    AggState(id, 0, Requested, None, {}, {}, map[], map[], map[], 0, 3, "", map[], map[], "", "", "")
  }

  // ---------------------------------------------------------------------
  // Fingerprints
  // ---------------------------------------------------------------------

  function Descriptions(issues: seq<Issue>): seq<string> {
    seq(|issues|, i requires 0 <= i < |issues| => issues[i].description)
  }

  function FingerprintOf(v: Verdict): Fingerprint {
    Fingerprint(v.summary, multiset(Descriptions(v.issues)))
  }

  function VerdictKey(source: Persona, target: Persona): string {
    source + "|" + target
  }

  /** Takes one occurrence of x out of a list of issues. */
  lemma PullIssue(b: seq<Issue>, x: Issue) returns (rest: seq<Issue>)
    requires x in multiset(b)
    ensures |rest| < |b| && multiset(rest) == multiset(b) - multiset{x}
    ensures multiset(Descriptions(b)) == multiset(Descriptions(rest)) + multiset{x.description}
  {
    var k :| 0 <= k < |b| && b[k] == x;
    var left, right := b[..k], b[k + 1..];
    rest := left + right;
    assert b == left + [x] + right;
    assert Descriptions(b) == Descriptions(left) + [x.description] + Descriptions(right);
    assert Descriptions(rest) == Descriptions(left) + Descriptions(right);
  }

  /** Re-ordering the issues of a verdict does not change its fingerprint. */
  lemma {:induction false} FingerprintIgnoresOrder(a: seq<Issue>, b: seq<Issue>)
    requires multiset(a) == multiset(b)
    ensures multiset(Descriptions(a)) == multiset(Descriptions(b))
    decreases |a|
  {
    if a == [] {
      assert |multiset(b)| == 0;
    } else {
      assert a[0] in multiset(a);
      var a' := PullIssue(a, a[0]);
      var b' := PullIssue(b, a[0]);
      FingerprintIgnoresOrder(a', b');
    }
  }

  // ---------------------------------------------------------------------
  // Apply
  // ---------------------------------------------------------------------

  /** Feedback gates left after the personas of `gone` lose theirs, both as
      the gated persona and as the one waited for. */
  function DropGates(pending: map<Persona, Persona>, gone: set<Persona>): map<Persona, Persona> {
    map k | k in pending && k !in gone && pending[k] !in gone :: pending[k]
  }

  /** Feedback gates left after `done` completes. */
  function OpenGates(pending: map<Persona, Persona>, done: Persona): map<Persona, Persona> {
    map k | k in pending && pending[k] != done :: pending[k]
  }

  predicate AbsorbsFailure(def: Option<WorkflowDef>, p: Persona) {
    def.Some? && def.value.partialReviewOnFailure && p != "" && IsCategoryReviewer(p)
  }

  /** Each component of the state folds over the log on its own. */

  /** The status an event sets, if it sets one. */
  function StatusSetBy(e: Event): Option<Status> {
    match e
    case WorkflowRequested(_) => Some(Requested)
    case WorkflowStarted(_) => Some(Running)
    case WorkflowResumed => Some(Running)
    case WorkflowRetried(_, _, _) => Some(Running)
    case WorkflowCompleted(_) => Some(Completed)
    case WorkflowFailed(_, _) => Some(Failed)
    case WorkflowCancelled => Some(WasCancelled)
    case WorkflowPaused(_, _, _) => Some(Paused)
    case _ => None
  }

  function CompletedAfter(def: Option<WorkflowDef>, done: set<Persona>, e: Event): set<Persona> {
    match e
    case PersonaCompleted(p) => done + {p}
    case PersonaTracked(p) => done + {p}
    case PersonaFailedTracked(f) => if AbsorbsFailure(def, f.persona) then done + {f.persona} else done
    case FeedbackGenerated(fb) => done - {fb.target} - (if fb.source != "" then {fb.source} else {})
    case WorkflowRetried(_, gone, _) => done - gone
    case _ => done
  }

  function SkippedAfter(def: Option<WorkflowDef>, skipped: set<Persona>, e: Event): set<Persona> {
    match e
    case PersonaFailedTracked(f) => if AbsorbsFailure(def, f.persona) then skipped + {f.persona} else skipped
    case _ => skipped
  }

  function CountsAfter(counts: map<Persona, nat>, e: Event): map<Persona, nat> {
    match e
    case FeedbackGenerated(fb) => counts[fb.target := CountOf(counts, fb.target) + 1]
    case _ => counts
  }

  function GatesAfter(pending: map<Persona, Persona>, e: Event): map<Persona, Persona> {
    match e
    case PersonaCompleted(p) => OpenGates(pending, p)
    case PersonaTracked(p) => OpenGates(pending, p)
    case FeedbackGenerated(fb) => if fb.source != "" then pending[fb.source := fb.target] else pending
    case WorkflowRetried(_, gone, _) => DropGates(pending, gone)
    case _ => pending
  }

  function RetriesAfter(retries: map<Persona, nat>, e: Event): map<Persona, nat> {
    match e
    case WorkflowRetried(from, _, automatic) =>
      if automatic && from != "" then retries[from := CountOf(retries, from) + 1] else retries
    case _ => retries
  }

  predicate NamesBoth(v: Verdict) {
    v.sourcePersona != "" && v.persona != ""
  }

  function FingerprintsAfter(m: map<string, Fingerprint>, e: Event): map<string, Fingerprint> {
    match e
    case VerdictTracked(v) =>
      var key := VerdictKey(v.sourcePersona, v.persona);
      if !NamesBoth(v) then m
      else if v.outcome == VerdictFail then m[key := FingerprintOf(v)]
      else m - {key}
    case _ => m
  }

  function FailingAfter(m: map<Persona, CachedVerdict>, e: Event): map<Persona, CachedVerdict> {
    match e
    case VerdictTracked(v) =>
      if !NamesBoth(v) then m
      else if v.outcome == VerdictFail then m[v.persona := CachedVerdict(v.sourcePersona, v.rawDiagnostics)]
      else m - {v.persona}
    case _ => m
  }

  /** Replays one event. */
  function ApplyEvent(s: AggState, env: Envelope): AggState {
    var e := env.event;
    AggState(
      s.id,
      env.version,
      if StatusSetBy(e).Some? then StatusSetBy(e).value else s.status,
      s.def,
      CompletedAfter(s.def, s.completed, e),
      SkippedAfter(s.def, s.skipped, e),
      CountsAfter(s.feedbackCount, e),
      GatesAfter(s.feedbackPending, e),
      RetriesAfter(s.autoRetries, e),
      if e.AIResponseReceived? then s.tokensUsed + e.tokens else s.tokensUsed,
      s.maxIterations,
      if e.WorkflowRequested? then e.workflowID else s.workflowID,
      FingerprintsAfter(s.lastFingerprint, e),
      FailingAfter(s.lastFailing, e),
      if e.WorkflowPaused? then e.retarget else s.retarget,
      if e.WorkflowPaused? then e.retargetSource else s.retargetSource,
      if e.WorkflowPaused? then e.retryFromPhase else s.retryFromPhase)
  }

  /** The three groups of cases that Apply works through, each on the
      components it moves. */
  function Lifecycle(s: AggState, e: Event): AggState {
    s.(status := if StatusSetBy(e).Some? then StatusSetBy(e).value else s.status,
       workflowID := if e.WorkflowRequested? then e.workflowID else s.workflowID,
       retarget := if e.WorkflowPaused? then e.retarget else s.retarget,
       retargetSource := if e.WorkflowPaused? then e.retargetSource else s.retargetSource,
       retryFromPhase := if e.WorkflowPaused? then e.retryFromPhase else s.retryFromPhase)
  }

  function Progress(s: AggState, e: Event): AggState {
    s.(completed := CompletedAfter(s.def, s.completed, e),
       skipped := SkippedAfter(s.def, s.skipped, e),
       feedbackCount := CountsAfter(s.feedbackCount, e),
       feedbackPending := GatesAfter(s.feedbackPending, e),
       autoRetries := RetriesAfter(s.autoRetries, e),
       tokensUsed := if e.AIResponseReceived? then s.tokensUsed + e.tokens else s.tokensUsed)
  }

  function Verdicts(s: AggState, e: Event): AggState {
    s.(lastFingerprint := FingerprintsAfter(s.lastFingerprint, e), lastFailing := FailingAfter(s.lastFailing, e))
  }

  lemma InParts(s: AggState, env: Envelope)
    ensures ApplyEvent(s, env)
            == Verdicts(Progress(Lifecycle(s.(version := env.version), env.event), env.event), env.event)
  {
    hide CompletedAfter, SkippedAfter, CountsAfter, GatesAfter, RetriesAfter, FingerprintsAfter, FailingAfter,
      StatusSetBy;
  }

  function ApplyAll(s: AggState, log: seq<Envelope>): AggState {
    if log == [] then s
    else ApplyEvent(ApplyAll(s, log[..|log| - 1]), log[|log| - 1])
  }

  // ---------------------------------------------------------------------
  // Decide
  // ---------------------------------------------------------------------

  /** What Decide reads besides the state: the environment switch for
      rate-limit pauses, and which persona a map iteration meets first. */
  datatype Choice = Choice(rateLimitAutopause: bool, pick: Persona)

  predicate IsStale(s: AggState, p: Persona) {
    p in s.feedbackPending && s.feedbackPending[p] !in s.completed
  }

  predicate IsRequired(s: AggState, p: Persona) {
    s.def.Some? && p in s.def.value.required
  }

  predicate AllRequiredDone(s: AggState) {
    s.def.Some? && forall p :: p in s.def.value.required ==> p in s.completed
  }

  function Emit(s: AggState, env: Envelope, e: Event): seq<Envelope> {
    [Envelope(s.id, s.version + 1, env.correlationID, e)]
  }

  function DecideRequested(s: AggState, env: Envelope): seq<Envelope> {
    if s.def.None? then Emit(s, env, WorkflowFailed("", Unspecified))
    else if s.status != Requested then []
    else Emit(s, env, WorkflowStarted(s.workflowID))
  }

  function MaybeCompleted(s: AggState, env: Envelope): seq<Envelope> {
    if s.status != Running || !AllRequiredDone(s) then []
    else Emit(s, env, WorkflowCompleted(|s.skipped|))
  }

  predicate HasIdleWatchdog(backend: string) {
    backend != "antigravity"
  }

  predicate IsAutoRetryable(f: Failure) {
    match f.kind
    case IdleTimeout => true
    case WallTimeout => !HasIdleWatchdog(f.backend)
    case _ => false
  }

  predicate AutoRetries(s: AggState, f: Failure) {
    && s.def.Some?
    && IsAutoRetryable(f)
    && CountOf(s.autoRetries, f.persona) < MaxAutoRetriesPerPersona
    && f.persona in s.def.value.graph
  }

  function DecideFailed(s: AggState, env: Envelope, f: Failure, autopause: bool, gone: set<Persona>): seq<Envelope> {
    if s.def.None? || s.status != Running then []
    else if !IsRequired(s, f.persona) then []
    else if AutoRetries(s, f) then Emit(s, env, WorkflowRetried(f.persona, gone, true))
    else if f.kind == RateLimited && autopause && f.persona in s.def.value.graph then
      Emit(s, env, WorkflowPaused("", "", f.persona))
    else if s.def.value.partialReviewOnFailure && IsCategoryReviewer(f.persona) then MaybeCompleted(s, env)
    else Emit(s, env, WorkflowFailed(f.persona, f.kind))
  }

  /** The same source failed the same target before, with the same
      fingerprint, and the target already had a retry. */
  predicate IsRepeat(s: AggState, v: Verdict) {
    var key := VerdictKey(v.sourcePersona, v.persona);
    && CountOf(s.feedbackCount, v.persona) >= 1
    && key in s.lastFingerprint && s.lastFingerprint[key] == FingerprintOf(v)
  }

  function DecideVerdict(s: AggState, env: Envelope, v: Verdict): seq<Envelope> {
    var iteration := CountOf(s.feedbackCount, v.persona) + 1;
    if s.status != Running || v.outcome != VerdictFail || !IsRequired(s, v.persona) then []
    else if v.advisory then Emit(s, env, WorkflowPaused("", "", ""))
    else if IsRepeat(s, v) then Emit(s, env, WorkflowPaused(v.persona, v.sourcePersona, ""))
    else if iteration > s.maxIterations then
      if s.def.value.escalateOnMaxIter then Emit(s, env, WorkflowPaused(v.persona, v.sourcePersona, ""))
      else Emit(s, env, WorkflowFailed(v.persona, Unspecified))
    else if IsConsolidatedReviewer(s.def.value, v.sourcePersona) then []
    else Emit(s, env, FeedbackGenerated(
                Feedback(v.persona, v.sourcePersona, iteration, v.issues, v.summary, v.rawDiagnostics)))
  }

  function CachedFor(s: AggState, p: Persona): CachedVerdict {
    if p in s.lastFailing then s.lastFailing[p] else CachedVerdict("", "")
  }

  function ResumeFeedback(s: AggState, p: Persona, source: Persona): Event {
    FeedbackGenerated(Feedback(p, source, CountOf(s.feedbackCount, p) + 1, [],
                               "re-triggered after operator guidance", CachedFor(s, p).rawDiagnostics))
  }

  predicate ResumesByRetry(s: AggState) {
    s.retryFromPhase != "" && s.def.Some? && s.retryFromPhase in s.def.value.graph
  }

  predicate ResumesByRetarget(s: AggState) {
    s.retarget != "" && IsRequired(s, s.retarget)
  }

  /** The personas the legacy scan may re-trigger. */
  function Exhausted(s: AggState): set<Persona> {
    set p | p in s.feedbackCount && s.feedbackCount[p] >= s.maxIterations
  }

  /** The legacy scan returns at the first exhausted persona it meets. */
  predicate ValidPick(s: AggState, pick: Persona) {
    Exhausted(s) == {} || pick in Exhausted(s)
  }

  function DecideResumed(s: AggState, env: Envelope, pick: Persona, gone: set<Persona>): seq<Envelope> {
    if ResumesByRetry(s) then Emit(s, env, WorkflowRetried(s.retryFromPhase, gone, false))
    else if ResumesByRetarget(s) then
      var source := if s.retargetSource == "" then CachedFor(s, s.retarget).sourcePersona else s.retargetSource;
      Emit(s, env, ResumeFeedback(s, s.retarget, source))
    else if pick in Exhausted(s) then
      Emit(s, env, ResumeFeedback(s, pick, CachedFor(s, pick).sourcePersona))
    else []
  }

  /** The bound on iterations after a resume: raised just enough to let the
      re-emitted feedback through. */
  function ResumedMax(s: AggState, pick: Persona): int {
    if ResumesByRetry(s) then s.maxIterations
    else if ResumesByRetarget(s) then
      var iteration := CountOf(s.feedbackCount, s.retarget) + 1;
      if iteration > s.maxIterations then iteration else s.maxIterations
    else if pick in Exhausted(s) then s.feedbackCount[pick] + 1
    else s.maxIterations
  }

  function DecideHint(s: AggState, env: Envelope, p: Persona, confidence: real, blockers: seq<string>,
                      trigger: string): seq<Envelope>
  {
    if s.status != Running then []
    else
      var threshold := if s.def.Some? && s.def.value.hintThreshold > 0.0 then s.def.value.hintThreshold else 0.7;
      if confidence >= threshold && blockers == [] then Emit(s, env, HintApproved(p, trigger))
      else Emit(s, env, WorkflowPaused("", "", ""))
  }

  function DecideHintRejected(s: AggState, env: Envelope, p: Persona, action: RejectAction): seq<Envelope> {
    if s.status != Running && s.status != Paused then []
    else match action
      case RejectSkip => Emit(s, env, PersonaCompleted(p))
      case RejectFail => Emit(s, env, WorkflowFailed(p, Unspecified))
      case RejectOther => []
  }

  ghost function GoneFor(def: Option<WorkflowDef>, p: Persona): set<Persona> {
    if def.Some? then Invalidated(def.value, p) else {}
  }

  /** The decision for one incoming event. */
  ghost function Decide(s: AggState, env: Envelope, c: Choice): seq<Envelope> {
    match env.event
    case WorkflowRequested(_) => DecideRequested(s, env)
    case PersonaCompleted(_) => MaybeCompleted(s, env)
    case PersonaFailed(f) => DecideFailed(s, env, f, c.rateLimitAutopause, GoneFor(s.def, f.persona))
    case VerdictRendered(v) => DecideVerdict(s, env, v)
    case TokenBudgetExceeded => Emit(s, env, WorkflowFailed("", Unspecified))
    case WorkflowResumed => DecideResumed(s, env, c.pick, GoneFor(s.def, s.retryFromPhase))
    case HintEmitted(p, confidence, blockers, trigger) => DecideHint(s, env, p, confidence, blockers, trigger)
    case HintRejected(p, action) => DecideHintRejected(s, env, p, action)
    case _ => []
  }

  // ---------------------------------------------------------------------
  // The object
  // ---------------------------------------------------------------------

  class WorkflowAggregate {
    const id: string
    var version: int
    var status: Status
    var def: Option<WorkflowDef>
    var completed: set<Persona>
    var skipped: set<Persona>
    var feedbackCount: map<Persona, nat>
    var feedbackPending: map<Persona, Persona>
    var autoRetries: map<Persona, nat>
    var tokensUsed: int
    var maxIterations: int
    var workflowID: string
    var lastFingerprint: map<string, Fingerprint>
    var lastFailing: map<Persona, CachedVerdict>
    var retarget: Persona
    var retargetSource: Persona
    var retryFromPhase: Persona

    function State(): AggState
      reads this
    {
      AggState(id, version, status, def, completed, skipped, feedbackCount, feedbackPending,
               autoRetries, tokensUsed, maxIterations, workflowID, lastFingerprint, lastFailing,
               retarget, retargetSource, retryFromPhase)
    }

    constructor (id: string)
      ensures State() == NewAggregate(id)
    {
      this.id := id;
      version, status, def := 0, Requested, None;
      completed, skipped := {}, {};
      feedbackCount, feedbackPending, autoRetries := map[], map[], map[];
      tokensUsed, maxIterations, workflowID := 0, 3, "";
      lastFingerprint, lastFailing := map[], map[];
      retarget, retargetSource, retryFromPhase := "", "", "";
    }

    /** Deletes every gate that waits for `done`. */
    method ClearGatesOnto(done: Persona)
      modifies this`feedbackPending
      ensures feedbackPending == OpenGates(old(feedbackPending), done)
    {
      var todo := feedbackPending.Keys;
      while todo != {}
        invariant todo <= feedbackPending.Keys <= old(feedbackPending).Keys
        invariant forall k :: k in old(feedbackPending) ==>
          (k in feedbackPending <==> k in todo || old(feedbackPending)[k] != done)
        invariant forall k :: k in feedbackPending ==> feedbackPending[k] == old(feedbackPending)[k]
        decreases |todo|
      {
        var src :| src in todo;
        todo := todo - {src};
        if feedbackPending[src] == done {
          feedbackPending := feedbackPending - {src};
        }
      }
    }

    /** The invalidation loop of a retry. */
    method Invalidate(gone: set<Persona>)
      modifies this`completed, this`feedbackPending
      ensures completed == old(completed) - gone
      ensures feedbackPending == DropGates(old(feedbackPending), gone)
    {
      var todo := gone;
      while todo != {}
        invariant todo <= gone
        invariant completed == old(completed) - (gone - todo)
        invariant feedbackPending == DropGates(old(feedbackPending), gone - todo)
        decreases |todo|
      {
        var p :| p in todo;
        completed := completed - {p};
        feedbackPending := feedbackPending - {p};
        ClearGatesOnto(p);
        todo := todo - {p};
        assert feedbackPending == DropGates(old(feedbackPending), gone - todo);
      }
    }

    method RecordFeedback(fb: Feedback)
      modifies this`completed, this`feedbackCount, this`feedbackPending
      ensures completed == CompletedAfter(def, old(completed), FeedbackGenerated(fb))
      ensures feedbackCount == CountsAfter(old(feedbackCount), FeedbackGenerated(fb))
      ensures feedbackPending == GatesAfter(old(feedbackPending), FeedbackGenerated(fb))
    {
      feedbackCount := feedbackCount[fb.target := CountOf(feedbackCount, fb.target) + 1];
      completed := completed - {fb.target};
      if fb.source != "" {
        completed := completed - {fb.source};
        feedbackPending := feedbackPending[fb.source := fb.target];
      }
    }

    method RecordVerdict(v: Verdict)
      modifies this`lastFingerprint, this`lastFailing
      ensures lastFingerprint == FingerprintsAfter(old(lastFingerprint), VerdictTracked(v))
      ensures lastFailing == FailingAfter(old(lastFailing), VerdictTracked(v))
    {
      if v.sourcePersona == "" || v.persona == "" {
        return;
      }
      var key := v.sourcePersona + "|" + v.persona;
      if v.outcome == VerdictFail {
        var fp := VerdictFingerprint(v);
        lastFingerprint := lastFingerprint[key := fp];
        lastFailing := lastFailing[v.persona := CachedVerdict(v.sourcePersona, v.rawDiagnostics)];
      } else {
        lastFingerprint := lastFingerprint - {key};
        lastFailing := lastFailing - {v.persona};
      }
    }

    /** The lifecycle cases of the switch: they move the status, and nothing
        the completion logic reads. */
    method ApplyLifecycle(e: Event)
      modifies this`status, this`workflowID, this`retarget, this`retargetSource, this`retryFromPhase
      ensures status == if StatusSetBy(e).Some? then StatusSetBy(e).value else old(status)
      ensures workflowID == if e.WorkflowRequested? then e.workflowID else old(workflowID)
      ensures retarget == if e.WorkflowPaused? then e.retarget else old(retarget)
      ensures retargetSource == if e.WorkflowPaused? then e.retargetSource else old(retargetSource)
      ensures retryFromPhase == if e.WorkflowPaused? then e.retryFromPhase else old(retryFromPhase)
    {
      match e {
        case WorkflowRequested(w) => workflowID, status := w, Requested;
        case WorkflowCompleted(_) => status := Completed;
        case WorkflowFailed(_, _) => status := Failed;
        case WorkflowCancelled => status := WasCancelled;
        case WorkflowPaused(r, rs, rf) =>
          retarget, retargetSource, retryFromPhase := r, rs, rf;
          status := Paused;
        case WorkflowResumed => status := Running;
        case WorkflowStarted(_) => status := Running;
        case WorkflowRetried(_, _, _) => status := Running;
        case _ =>
      }
    }

    /** The cases that move completions, gates and counters. */
    method ApplyProgress(e: Event)
      modifies this`completed, this`skipped, this`feedbackCount, this`feedbackPending,
               this`autoRetries, this`tokensUsed
      ensures completed == CompletedAfter(def, old(completed), e)
      ensures skipped == SkippedAfter(def, old(skipped), e)
      ensures feedbackCount == CountsAfter(old(feedbackCount), e)
      ensures feedbackPending == GatesAfter(old(feedbackPending), e)
      ensures autoRetries == RetriesAfter(old(autoRetries), e)
      ensures tokensUsed == if e.AIResponseReceived? then old(tokensUsed) + e.tokens else old(tokensUsed)
    {
      hide IsCategoryReviewer, OpenGates, DropGates;
      match e {
        case WorkflowRetried(from, gone, automatic) =>
          Invalidate(gone);
          if automatic && from != "" {
            autoRetries := autoRetries[from := CountOf(autoRetries, from) + 1];
          }
        case PersonaCompleted(p) =>
          completed := completed + {p};
          ClearGatesOnto(p);
        case PersonaTracked(p) =>
          completed := completed + {p};
          ClearGatesOnto(p);
        case PersonaFailedTracked(f) =>
          if def.Some? && def.value.partialReviewOnFailure && f.persona != "" && IsCategoryReviewer(f.persona) {
            completed, skipped := completed + {f.persona}, skipped + {f.persona};
          }
        case AIResponseReceived(n) => tokensUsed := tokensUsed + n;
        case FeedbackGenerated(fb) => RecordFeedback(fb);
        case _ =>
      }
    }

    method ApplyVerdict(e: Event)
      modifies this`lastFingerprint, this`lastFailing
      ensures lastFingerprint == FingerprintsAfter(old(lastFingerprint), e)
      ensures lastFailing == FailingAfter(old(lastFailing), e)
    {
      hide FingerprintOf, VerdictKey;
      match e {
        case VerdictTracked(v) => RecordVerdict(v);
        case _ =>
      }
    }

    method LifecycleCases(e: Event)
      modifies this
      ensures State() == Lifecycle(old(State()), e)
    {
      hide StatusSetBy;
      ApplyLifecycle(e);
    }

    method ProgressCases(e: Event)
      modifies this
      ensures State() == Progress(old(State()), e)
    {
      hide CompletedAfter, SkippedAfter, CountsAfter, GatesAfter, RetriesAfter;
      ApplyProgress(e);
    }

    method VerdictCases(e: Event)
      modifies this
      ensures State() == Verdicts(old(State()), e)
    {
      hide FingerprintsAfter, FailingAfter;
      ApplyVerdict(e);
    }

    method Apply(env: Envelope)
      modifies this
      ensures State() == ApplyEvent(old(State()), env)
    {
      hide Lifecycle, Progress, Verdicts, ApplyEvent;
      ghost var s := State();
      version := env.version;
      LifecycleCases(env.event);
      ProgressCases(env.event);
      VerdictCases(env.event);
      InParts(s, env);
    }

    static method VerdictFingerprint(v: Verdict) returns (fp: Fingerprint)
      ensures fp == FingerprintOf(v)
    {
      var descs: seq<string> := [];
      for i := 0 to |v.issues|
        invariant descs == Descriptions(v.issues)[..i]
      {
        descs := descs + [v.issues[i].description];
      }
      assert descs == Descriptions(v.issues);
      fp := Fingerprint(v.summary, multiset(descs));
    }

    /** Resuming bumps the iteration bound in place. The ghost result is the
        persona at which the legacy scan stopped. */
    method DecideWorkflowResumed(env: Envelope) returns (events: seq<Envelope>, ghost pick: Persona)
      modifies this`maxIterations
      ensures ValidPick(old(State()), pick)
      ensures events == DecideResumed(old(State()), env, pick, GoneFor(def, retryFromPhase))
      ensures maxIterations == ResumedMax(old(State()), pick)
    {
      hide Invalidated, ResumeFeedback;
      var s := State();
      pick := "";
      if Exhausted(s) != {} {
        pick :| pick in Exhausted(s);
      }
      if retryFromPhase != "" && def.Some? {
        if retryFromPhase in def.value.graph {
          var gone := PersonasToInvalidateFor(def.value, retryFromPhase);
          return Emit(s, env, WorkflowRetried(retryFromPhase, gone, false)), pick;
        }
      }
      if retarget != "" && IsRequired(s, retarget) {
        var cached := CachedFor(s, retarget);
        var source := retargetSource;
        if source == "" {
          source := cached.sourcePersona;
        }
        var iteration := CountOf(feedbackCount, retarget) + 1;
        if iteration > maxIterations {
          maxIterations := iteration;
        }
        return Emit(s, env, ResumeFeedback(s, retarget, source)), pick;
      }
      var todo := feedbackCount.Keys;
      while todo != {}
        invariant todo <= feedbackCount.Keys && State() == s
        invariant Exhausted(s) <= todo
        decreases |todo|
      {
        var p :| p in todo;
        todo := todo - {p};
        if feedbackCount[p] >= maxIterations {
          maxIterations := feedbackCount[p] + 1;
          return Emit(s, env, ResumeFeedback(s, p, CachedFor(s, p).sourcePersona)), p;
        }
      }
      events := [];
    }

    /** Decide as the engine calls it. Only a resume touches the object. */
    method DecideNow(env: Envelope, rateLimitAutopause: bool) returns (events: seq<Envelope>, ghost choice: Choice)
      modifies this`maxIterations
      ensures choice.rateLimitAutopause == rateLimitAutopause
      ensures env.event.WorkflowResumed? ==> ValidPick(old(State()), choice.pick)
      ensures events == Decide(old(State()), env, choice)
      ensures !env.event.WorkflowResumed? ==> maxIterations == old(maxIterations)
    {
      choice := Choice(rateLimitAutopause, "");
      match env.event {
        case WorkflowRequested(_) => events := DecideRequested(State(), env);
        case PersonaCompleted(_) => events := MaybeCompleted(State(), env);
        case PersonaFailed(f) =>
          var gone: set<Persona> := {};
          if def.Some? {
            gone := PersonasToInvalidateFor(def.value, f.persona);
          }
          events := DecideFailed(State(), env, f, rateLimitAutopause, gone);
        case VerdictRendered(v) => events := DecideVerdict(State(), env, v);
        case TokenBudgetExceeded => events := Emit(State(), env, WorkflowFailed("", Unspecified));
        case WorkflowResumed =>
          ghost var pick;
          events, pick := DecideWorkflowResumed(env);
          choice := Choice(rateLimitAutopause, pick);
        case HintEmitted(p, confidence, blockers, trigger) =>
          events := DecideHint(State(), env, p, confidence, blockers, trigger);
        case HintRejected(p, action) => events := DecideHintRejected(State(), env, p, action);
        case _ => events := [];
      }
    }
  }
}
