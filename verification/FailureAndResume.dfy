/** What a failure does, and what a resume undoes: after an escalation it
    sends the work back to the persona that had not converged, and after a
    rate-limit pause it retries the persona that had failed. */
module FailureAndResume {
  import opened Events
  import opened WorkflowGraph
  import opened Aggregate
  import opened Replay
  import opened EngineStep
  import opened EngineSafety
  import opened DecisionExact

  // ---------------------------------------------------------------------
  // Failures
  // ---------------------------------------------------------------------

  /** The failure concerns a running workflow. */
  ghost predicate Matters(log: seq<Envelope>, def: Option<WorkflowDef>, f: Failure) {
    LastStatus(log, Running) && def.Some? && f.persona in def.value.required
  }

  /** The first silent stall of a handler, or the first wall-clock timeout of
      one whose backend cannot be watched for stalls. */
  ghost predicate MayRetry(log: seq<Envelope>, d: WorkflowDef, f: Failure) {
    && (f.kind == IdleTimeout || (f.kind == WallTimeout && f.backend == "antigravity"))
    && f.persona in d.graph && AutoRetriesOf(log, f.persona) == 0
  }

  predicate MayPause(d: WorkflowDef, f: Failure, c: Choice) {
    f.kind == RateLimited && c.rateLimitAutopause && f.persona in d.graph
  }

  /** What a failure that matters makes the engine publish. */
  ghost predicate FailureOutcome(log: seq<Envelope>, attached: Option<WorkflowDef>, d: WorkflowDef, f: Failure,
                                 c: Choice, skipped: set<Persona>, out: seq<Event>) {
    if MayRetry(log, d, f) then out == [WorkflowRetried(f.persona, Invalidated(d, f.persona), true)]
    else if MayPause(d, f, c) then out == [WorkflowPaused("", "", f.persona)]
    else if !AbsorbsFailure(Some(d), f.persona) then out == [WorkflowFailed(f.persona, f.kind)]
    else (out != [] <==> forall p :: p in d.required ==> p == f.persona || Done(attached, log, p))
         && (out != [] ==> out == [WorkflowCompleted(|skipped + {f.persona}|)])
  }

  /** Exactly what the engine does about a failed persona, in terms of the log:
      one automatic retry, else a rate-limit pause, else the workflow fails,
      unless a partial review absorbs the failure; then the failed reviewer
      counts as done and the workflow may complete. */
  lemma FailureExact(registry: Registry, id: string, log: seq<Envelope>, env: Envelope, c: Choice, f: Failure)
    requires env.event == PersonaFailed(f) && env.aggregateID != id
    ensures var def := Load(registry, id, log).def;
      var out := EventsOf(StepOutputOf(registry, id, log, env, c).published);
      if Matters(log, def, f)
      then FailureOutcome(log, PreAttached(registry, log), def.value, f, c, Load(registry, id, log).skipped, out)
      else out == []
  {
    hide Load, Invalidated, Done, LastStatus, ApplyAll, TrackingEvents, AbsorbsFailure, DecideFailed;
    var s := Load(registry, id, log);
    LoadMeaning(registry, id, log, f.persona, "", "", Fingerprint("", multiset{}));
    forall p ensures p in s.completed <==> Done(PreAttached(registry, log), log, p) {
      LoadMeaning(registry, id, log, p, "", "", Fingerprint("", multiset{}));
    }
    FailureOnState(s, env, f, c);
  }

  /** The same, on the loaded state. */
  lemma FailureOnState(s: AggState, env: Envelope, f: Failure, c: Choice)
    requires env.event == PersonaFailed(f) && env.aggregateID != s.id
    ensures var out := EventsOf(StepOn(s, env, c).published);
      if s.status != Running || !IsRequired(s, f.persona) then out == []
      else
        var d := s.def.value;
        if IsAutoRetryable(f) && f.persona in d.graph && CountOf(s.autoRetries, f.persona) < MaxAutoRetriesPerPersona
        then out == [WorkflowRetried(f.persona, Invalidated(d, f.persona), true)]
        else if MayPause(d, f, c) then out == [WorkflowPaused("", "", f.persona)]
        else if !AbsorbsFailure(Some(d), f.persona) then out == [WorkflowFailed(f.persona, f.kind)]
        else
          && (out != [] <==> forall p :: p in d.required ==> p == f.persona || p in s.completed)
          && (out != [] ==> out == [WorkflowCompleted(|s.skipped + {f.persona}|)])
  {
    hide Invalidated, ApplyAll, TrackingEvents, IsAutoRetryable, DecideFailed, MaybeCompleted, AbsorbsFailure;
    FailureTracked(s, env, f);
    var s1 := ApplyAll(s, TrackingEvents(s, env));
    assert StepOn(s, env, c).published
        == DecideFailed(s1, env, f, c.rateLimitAutopause, GoneFor(s1.def, f.persona));
    FailureBranches(s1, env, f, c, GoneFor(s1.def, f.persona));
    CompletionBranch(s1, env);
  }

  lemma FailureBranches(s: AggState, env: Envelope, f: Failure, c: Choice, gone: set<Persona>)
    ensures var decided := DecideFailed(s, env, f, c.rateLimitAutopause, gone);
      var out := EventsOf(decided);
      if s.status != Running || !IsRequired(s, f.persona) then out == []
      else
        var d := s.def.value;
        if IsAutoRetryable(f) && f.persona in d.graph && CountOf(s.autoRetries, f.persona) < MaxAutoRetriesPerPersona
        then out == [WorkflowRetried(f.persona, gone, true)]
        else if MayPause(d, f, c) then out == [WorkflowPaused("", "", f.persona)]
        else if !AbsorbsFailure(Some(d), f.persona) then out == [WorkflowFailed(f.persona, f.kind)]
        else decided == MaybeCompleted(s, env)
  {
    assert !IsCategoryReviewer("");
    hide IsCategoryReviewer, MaybeCompleted, IsAutoRetryable;
  }

  lemma CompletionBranch(s: AggState, env: Envelope)
    ensures EventsOf(MaybeCompleted(s, env)) ==
      if s.status == Running && s.def.Some? && forall p :: p in s.def.value.required ==> p in s.completed
      then [WorkflowCompleted(|s.skipped|)] else []
  {}

  lemma FailureTracked(s: AggState, env: Envelope, f: Failure)
    requires env.event == PersonaFailed(f) && env.aggregateID != s.id
    ensures var s1 := ApplyAll(s, TrackingEvents(s, env));
      && s1.status == s.status && s1.def == s.def && s1.autoRetries == s.autoRetries
      && var absorbed := s.status == Running && IsRequired(s, f.persona) && AbsorbsFailure(s.def, f.persona);
         && s1.completed == s.completed + (if absorbed then {f.persona} else {})
         && s1.skipped == s.skipped + if absorbed then {f.persona} else {}
  {
    hide IsCategoryReviewer;
    TrackedState(s, env);
  }

  /** The reviewers of the pr-review workflow, as its definition lists them. */
  const PrCategoryReviewers: seq<Persona> := [
    "pr-security", "pr-concurrency", "pr-error-handling",
    "pr-observability", "pr-api-contract", "pr-idempotency",
    "pr-testing", "pr-integration", "pr-performance",
    "pr-data", "pr-hygiene", "pr-vendor-resilience",
    "pr-docs-concordance", "pr-correctness"]

  /** A partial review absorbs the failure of every reviewer its definition
      lists, except pr-correctness, and of the optional sweep; of nobody else. */
  lemma AbsorbedReviewers(def: WorkflowDef, p: Persona)
    requires def.partialReviewOnFailure
    ensures AbsorbsFailure(Some(def), p) <==>
      p == "pr-stale-reference" || (p in PrCategoryReviewers && p != "pr-correctness")
  {
    if IsCategoryReviewer(p) {
      CorrectnessDiffers(p);
    }
    assert p in PrCategoryReviewers[..13] <==> exists i :: 0 <= i < 13 && PrCategoryReviewers[i] == p;
  }

  /** The name differs from the others in length, or in a letter. */
  lemma CorrectnessDiffers(p: Persona)
    requires IsCategoryReviewer(p)
    ensures p != "pr-correctness"
  {
    var c := "pr-correctness";
    assert |c| == 14 && c[3] == 'c' && c[4] == 'o' && c[5] == 'r';
    if |p| == 14 {
      assert p[3] != 'c' || p[5] != 'r';
    }
  }

  // ---------------------------------------------------------------------
  // Resumes
  // ---------------------------------------------------------------------

  predicate Undisturbed(more: seq<Envelope>) {
    forall i :: 0 <= i < |more| ==> !more[i].event.WorkflowPaused? && !more[i].event.WorkflowRequested?
  }

  /** What a pause leaves for the resume, and the definition in force. */
  datatype Pending = Pending(def: Option<WorkflowDef>, retarget: Persona, source: Persona, retryFrom: Persona)

  function PendingOf(s: AggState): Pending {
    Pending(s.def, s.retarget, s.retargetSource, s.retryFromPhase)
  }

  lemma {:induction false} ReplayKeepsPending(s: AggState, log: seq<Envelope>, more: seq<Envelope>)
    requires Undisturbed(more)
    ensures var a, b := ApplyAll(s, log), ApplyAll(s, log + more);
      PendingOf(b) == PendingOf(a) && b.workflowID == a.workflowID
  {
    hide CompletedAfter, SkippedAfter, CountsAfter, GatesAfter, RetriesAfter, FingerprintsAfter, FailingAfter;
    if more == [] {
      assert log + more == log;
    } else {
      var init := more[..|more| - 1];
      ReplayKeepsPending(s, log, init);
      assert (log + more)[..|log + more| - 1] == log + init;
    }
  }

  lemma {:induction false} FirstRequestStays(registry: Registry, log: seq<Envelope>, more: seq<Envelope>)
    requires Undisturbed(more)
    ensures PreAttached(registry, log + more) == PreAttached(registry, log)
  {
    if log != [] {
      assert (log + more)[1..] == log[1..] + more;
      FirstRequestStays(registry, log[1..], more);
    } else if more != [] {
      assert log + more == more;
      FirstRequestStays(registry, log, more[1..]);
      assert log + more[1..] == more[1..];
    }
  }

  /** Nothing but another pause or another request changes what a resume will
      do. */
  lemma LoadKeepsPending(registry: Registry, id: string, log: seq<Envelope>, more: seq<Envelope>)
    requires Undisturbed(more)
    ensures PendingOf(Load(registry, id, log + more)) == PendingOf(Load(registry, id, log))
  {
    FirstRequestStays(registry, log, more);
    ReplayKeepsPending(Attach(NewAggregate(id), PreAttached(registry, log)), log, more);
  }

  /** A stored pause leaves its payload for the resume. */
  lemma LoadPaused(registry: Registry, id: string, log: seq<Envelope>, env: Envelope)
    requires env.event.WorkflowPaused?
    ensures PendingOf(Load(registry, id, log + [env]))
            == Pending(Load(registry, id, log).def, env.event.retarget, env.event.retargetSource,
                       env.event.retryFromPhase)
  {
    hide CompletedAfter, SkippedAfter, CountsAfter, GatesAfter, RetriesAfter, FingerprintsAfter, FailingAfter;
    PreAttachedSnoc(registry, log, env);
    assert (log + [env])[..|log|] == log;
  }

  /** The log in which a resume arrives: some step paused the workflow, and
      whatever ran since neither paused it again nor requested it anew. */
  ghost predicate PausedSince(registry: Registry, id: string, log: seq<Envelope>, pausing: Step, later: seq<Envelope>)
  {
    && pausing.Process? && Undisturbed(later)
    && exists e :: e in StepPublished(registry, id, log, pausing) && e.event.WorkflowPaused?
  }

  ghost function LogAtResume(registry: Registry, id: string, log: seq<Envelope>, pausing: Step,
                             later: seq<Envelope>): seq<Envelope>
  {
    Next(registry, id, log, pausing) + later
  }

  /** The published pause, its place among the stored events, and what the
      resume finds. */
  lemma ResumeFindsPause(registry: Registry, id: string, log: seq<Envelope>, pausing: Step, later: seq<Envelope>,
                         pause: Envelope)
    requires PausedSince(registry, id, log, pausing, later)
    requires StepPublished(registry, id, log, pausing) == [pause] && pause.event.WorkflowPaused?
    requires pausing.env.event.VerdictRendered? || pausing.env.event.PersonaFailed?
    ensures PendingOf(Load(registry, id, LogAtResume(registry, id, log, pausing, later)))
            == Pending(Load(registry, id, log).def, pause.event.retarget, pause.event.retargetSource,
                       pause.event.retryFromPhase)
  {
    hide Load, Decide, Tracking;
    var s, env := Load(registry, id, log), pausing.env;
    var tracking := TrackingEvents(s, env);
    var s1 := ApplyAll(s, tracking);
    var mirror := Mirror(s1, env, 1);
    var stored := Stamp(id, |log|, tracking + [pause] + mirror);
    assert Next(registry, id, log, pausing) == log + stored;
    var n := |tracking|;
    assert stored[n].event == pause.event;
    var before, after := log + stored[..n], stored[n + 1..] + later;
    assert LogAtResume(registry, id, log, pausing, later) == before + [stored[n]] + after;
    StoredAround(s, env, stored, n, pause);
    LoadKeepsPending(registry, id, log, stored[..n]);
    LoadPaused(registry, id, before, stored[n]);
    LoadKeepsPending(registry, id, before + [stored[n]], after);
  }

  lemma StoredAround(s: AggState, env: Envelope, stored: seq<Envelope>, n: nat, pause: Envelope)
    requires n == |TrackingEvents(s, env)|
    requires var all := TrackingEvents(s, env) + [pause] + Mirror(ApplyAll(s, TrackingEvents(s, env)), env, 1);
      |stored| == |all| && forall i :: 0 <= i < |all| ==> stored[i].event == all[i].event
    ensures Undisturbed(stored[..n]) && Undisturbed(stored[n + 1..])
  {
    hide ApplyAll;
  }

  /** Escalation and resume: when a verdict paused the workflow because the
      work does not converge, the resume sends the same target back to work,
      on behalf of the same source. */
  lemma ResumeResendsFeedback(registry: Registry, id: string, log: seq<Envelope>, pausing: Step, later: seq<Envelope>,
                              v: Verdict, resume: Envelope, c: Choice)
    requires PausedSince(registry, id, log, pausing, later)
    requires pausing.env.event == VerdictRendered(v) && !v.advisory && v.persona != ""
    requires resume.event.WorkflowResumed?
    ensures var out := StepOutputOf(registry, id, LogAtResume(registry, id, log, pausing, later), resume, c).published;
      && |out| == 1 && out[0].event.FeedbackGenerated? && out[0].event.feedback.target == v.persona
      && (v.sourcePersona != "" ==> out[0].event.feedback.source == v.sourcePersona)
  {
    hide Load, FingerprintOf, VerdictKey;
    var s := Load(registry, id, log);
    assert TrackingEvents(s, pausing.env) == [];
    var out1 := DecideVerdict(s, pausing.env, v);
    assert StepPublished(registry, id, log, pausing) == out1;
    assert out1 != [] && out1[0].event == WorkflowPaused(v.persona, v.sourcePersona, "") && IsRequired(s, v.persona);
    ResumeFindsPause(registry, id, log, pausing, later, out1[0]);
    var s2 := Load(registry, id, LogAtResume(registry, id, log, pausing, later));
    assert TrackingEvents(s2, resume) == [];
  }

  /** Rate limit and resume: when a failure paused the workflow, the resume
      retries the failed persona and invalidates exactly what depends on it. */
  lemma ResumeRetriesFailure(registry: Registry, id: string, log: seq<Envelope>, pausing: Step, later: seq<Envelope>,
                             f: Failure, resume: Envelope, c: Choice)
    requires PausedSince(registry, id, log, pausing, later)
    requires pausing.env.event == PersonaFailed(f) && f.persona != ""
    requires resume.event.WorkflowResumed?
    ensures var def := Load(registry, id, log).def;
      var out := StepOutputOf(registry, id, LogAtResume(registry, id, log, pausing, later), resume, c).published;
      && def.Some? && |out| == 1
      && out[0].event == WorkflowRetried(f.persona, Invalidated(def.value, f.persona), false)
  {
    hide Load, Invalidated, IsCategoryReviewer;
    var s := Load(registry, id, log);
    TrackedState(s, pausing.env);
    var s1 := ApplyAll(s, TrackingEvents(s, pausing.env));
    assert s1.def == s.def;
    var out1 := Decide(s1, pausing.env, pausing.choice);
    assert StepPublished(registry, id, log, pausing) == out1;
    assert out1 != [] && out1[0].event == WorkflowPaused("", "", f.persona);
    ResumeFindsPause(registry, id, log, pausing, later, out1[0]);
    var s2 := Load(registry, id, LogAtResume(registry, id, log, pausing, later));
    assert TrackingEvents(s2, resume) == [];
  }
}
