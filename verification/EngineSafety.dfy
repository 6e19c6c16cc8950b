/** Safety of the engine over whole runs: completion is exact, stale
    completions are never credited, gates cannot wedge a workflow, and a
    non-converging verdict is escalated. */
module EngineSafety {
  import opened Events
  import opened WorkflowGraph
  import opened Aggregate
  import opened Replay
  import opened EngineStep

  // ---------------------------------------------------------------------
  // Completion
  // ---------------------------------------------------------------------

  /** The log with the completion the step credits, if it credits it. */
  ghost function Credited(registry: Registry, id: string, log: seq<Envelope>, env: Envelope): seq<Envelope> {
    log + TrackingEvents(Load(registry, id, log), env)
  }

  lemma CreditedState(registry: Registry, id: string, log: seq<Envelope>, env: Envelope)
    requires env.event.PersonaCompleted?
    ensures ApplyAll(Load(registry, id, log), TrackingEvents(Load(registry, id, log), env))
            == Load(registry, id, Credited(registry, id, log, env))
  {
    hide ApplyEvent, Load, IsStale;
    var s := Load(registry, id, log);
    TrackedState(s, env);
    if Tracking(s, env).Some? {
      LoadSnoc(registry, id, log, Emit(s, env, Tracking(s, env).value)[0]);
    } else {
      assert Credited(registry, id, log, env) == log;
    }
  }

  /** On a persona completion the engine publishes WorkflowCompleted, and
      nothing else, exactly when the workflow is running and every required
      persona is done in the log extended by the credited completion. */
  lemma CompletionExact(registry: Registry, id: string, log: seq<Envelope>, env: Envelope, c: Choice)
    requires env.event.PersonaCompleted?
    ensures var ext := Credited(registry, id, log, env);
      var published := StepOutputOf(registry, id, log, env, c).published;
      var def := Load(registry, id, ext).def;
      && (published != [] <==>
            def.Some? && LastStatus(ext, Running)
            && forall p :: p in def.value.required ==> Done(PreAttached(registry, ext), ext, p))
      && (published != [] ==> |published| == 1 && published[0].event.WorkflowCompleted?)
  {
    hide Load, ApplyAll, TrackingEvents, Done;
    CreditedState(registry, id, log, env);
    var ext := Credited(registry, id, log, env);
    forall p ensures
      (p in Load(registry, id, ext).completed <==> Done(PreAttached(registry, ext), ext, p))
      && (Load(registry, id, ext).status == Running <==> LastStatus(ext, Running))
    {
      LoadMeaning(registry, id, ext, p, "", "", Fingerprint("", multiset{}));
    }
    LoadMeaning(registry, id, ext, "", "", "", Fingerprint("", multiset{}));
    var s1 := Load(registry, id, ext);
    assert StepOutputOf(registry, id, log, env, c).published == MaybeCompleted(s1, env);
    assert AllRequiredDone(s1) <==>
      s1.def.Some? && forall p :: p in s1.def.value.required ==> Done(PreAttached(registry, ext), ext, p);
  }

  // ---------------------------------------------------------------------
  // Stale completions
  // ---------------------------------------------------------------------

  /** Position j answers the feedback at i: its target completed, or a retry
      invalidated one of the two. */
  ghost predicate Answers(def: Option<WorkflowDef>, log: seq<Envelope>, source: Persona, target: Persona, j: int) {
    && 0 <= j < |log|
    && (Completes(def, log[j].event, target)
        || (log[j].event.WorkflowRetried?
            && (source in log[j].event.invalidated || target in log[j].event.invalidated)))
  }

  /** A completion is credited only if the last feedback of its persona has
      been answered. */
  lemma TrackedMeansAnswered(registry: Registry, id: string, log: seq<Envelope>, env: Envelope, p: Persona, i: nat)
    requires Tracking(Load(registry, id, log), env) == Some(PersonaTracked(p))
    requires i < |log| && FeedbackFrom(log[i].event, p)
    requires forall j :: i < j < |log| ==> !FeedbackFrom(log[j].event, p)
    ensures exists j :: i < j && Answers(PreAttached(registry, log), log, p, log[i].event.feedback.target, j)
  {
    hide Load;
    var target := log[i].event.feedback.target;
    var def := PreAttached(registry, log);
    LoadMeaning(registry, id, log, p, target, "", Fingerprint("", multiset{}));
    LoadMeaning(registry, id, log, target, "", "", Fingerprint("", multiset{}));
    if Gated(log, p, target) {
      assert Done(def, log, target);
      var k :| DoneAt(def, log, target, k);
      assert Invalidates(log[i].event, target);
      assert Answers(def, log, p, target, k);
    } else {
      assert !GateAt(log, p, target, i);
      var j :| i < j < |log| && ReleasesGate(log[j].event, p, target);
      assert Answers(def, log, p, target, j);
    }
  }

  predicate IsTracking(e: Event) {
    e.PersonaTracked?
  }

  /** Only the engine records tracked completions. */
  predicate NoForeignTracking(steps: seq<Step>) {
    forall k :: 0 <= k < |steps| && steps[k].Append? ==>
      forall i :: 0 <= i < |steps[k].events| ==> !IsTracking(steps[k].events[i].event)
  }

  lemma DecideNeverTracks(s: AggState, env: Envelope, c: Choice)
    ensures forall e :: e in Decide(s, env, c) ==> !IsTracking(e.event)
  {
    hide IsCategoryReviewer, Invalidated, FingerprintOf, VerdictKey;
  }

  /** Within a step's output only the first event can be a tracked completion. */
  lemma TrackingComesFirst(s: AggState, env: Envelope, c: Choice, i: nat)
    requires i < |StepOn(s, env, c).stored| && IsTracking(StepOn(s, env, c).stored[i].event)
    ensures i == 0 && Tracking(s, env) == Some(StepOn(s, env, c).stored[0].event)
  {
    hide Decide, ApplyAll, Tracking;
    var s1 := ApplyAll(s, TrackingEvents(s, env));
    DecideNeverTracks(s1, env, c);
    var t, decided := TrackingEvents(s, env), Decide(s1, env, c);
    var rest := decided + Mirror(s1, env, |decided|);
    assert StepOn(s, env, c).stored == t + rest;
    assert forall j :: 0 <= j < |rest| ==> !IsTracking(rest[j].event);
    assert forall j :: |t| <= j < |t + rest| ==> (t + rest)[j] == rest[j - |t|];
  }

  /** The completion at k was credited while the feedback at i was the last
      one of its persona, and some answer lies between them. */
  ghost predicate AnsweredBetween(registry: Registry, log: seq<Envelope>, i: nat, k: nat)
    requires i < k < |log| && log[i].event.FeedbackGenerated? && IsTracking(log[k].event)
  {
    exists j :: i < j < k
      && Answers(PreAttached(registry, log[..k]), log[..k], log[k].event.tracked, log[i].event.feedback.target, j)
  }

  /** i is the last feedback of p before k. */
  predicate LastFeedbackOf(log: seq<Envelope>, p: Persona, i: nat, k: nat)
    requires i < k <= |log|
  {
    FeedbackFrom(log[i].event, p) && forall j :: i < j < k ==> !FeedbackFrom(log[j].event, p)
  }

  lemma StoredTrackingAnswered(registry: Registry, id: string, before: seq<Envelope>, step: Step, k: nat, i: nat)
    requires NoForeignTracking([step])
    requires var log := Next(registry, id, before, step);
      |before| <= k < |log| && IsTracking(log[k].event) && i < k && LastFeedbackOf(log, log[k].event.tracked, i, k)
    ensures AnsweredBetween(registry, Next(registry, id, before, step), i, k)
  {
    hide Load, StepOn, PreAttached, Completes;
    var log := Next(registry, id, before, step);
    var stored := StepStored(registry, id, before, step);
    assert log[k].event == stored[k - |before|].event;
    assert [step][0] == step;
    match step {
      case Append(events) =>
      case Process(env, c) =>
        TrackingComesFirst(Load(registry, id, before), env, c, k - |before|);
        assert log[..k] == before;
        assert forall j :: 0 <= j < |before| ==> log[j] == before[j];
        TrackedMeansAnswered(registry, id, before, env, log[k].event.tracked, i);
    }
  }

  /** In every run, between the last feedback of a persona and a tracked
      completion of it lies an answer to that feedback. */
  lemma {:induction false} StaleNeverCredited(registry: Registry, id: string, steps: seq<Step>, k: nat, i: nat)
    requires NoForeignTracking(steps)
    requires var log := Run(registry, id, [], steps);
      k < |log| && IsTracking(log[k].event) && i < k && LastFeedbackOf(log, log[k].event.tracked, i, k)
    ensures AnsweredBetween(registry, Run(registry, id, [], steps), i, k)
  {
    hide Load, StepStored, PreAttached, Answers;
    if steps != [] {
      var init, last := steps[..|steps| - 1], steps[|steps| - 1];
      var before := Run(registry, id, [], init);
      var log := Run(registry, id, [], steps);
      assert forall j :: 0 <= j < |before| ==> log[j] == before[j];
      if k < |before| {
        StaleNeverCredited(registry, id, init, k, i);
        assert log[..k] == before[..k];
      } else {
        StoredTrackingAnswered(registry, id, before, last, k, i);
      }
    }
  }

  // ---------------------------------------------------------------------
  // Gates cannot wedge a workflow
  // ---------------------------------------------------------------------

  /** Wherever both are delivered, t is delivered before p. */
  predicate DeliveredBefore(order: seq<Persona>, t: Persona, p: Persona) {
    forall a, b :: 0 <= a < |order| && 0 <= b < |order| && order[a] == t && order[b] == p ==> a < b
  }

  /** Every feedback so far sent required work back to someone who is
      delivered before its source. */
  ghost predicate FeedbackInOrder(d: WorkflowDef, order: seq<Persona>, log: seq<Envelope>) {
    forall i :: 0 <= i < |log| && log[i].event.FeedbackGenerated? ==>
      log[i].event.feedback.target in d.required
      && (log[i].event.feedback.source != "" ==>
            DeliveredBefore(order, log[i].event.feedback.target, log[i].event.feedback.source))
  }

  /** Every feedback so far sent required work back to someone strictly
      upstream of its source. */
  ghost predicate FeedbackGoesUpstream(d: WorkflowDef, log: seq<Envelope>) {
    forall i :: 0 <= i < |log| && log[i].event.FeedbackGenerated? ==>
      log[i].event.feedback.target in d.required
      && (log[i].event.feedback.source != "" ==>
            Precedes(d.graph, log[i].event.feedback.target, log[i].event.feedback.source))
  }

  /** No entry precedes itself or an earlier one. */
  ghost predicate TopologicalOrder(g: Graph, order: seq<Persona>) {
    forall i, j :: 0 <= i <= j < |order| ==> !Precedes(g, order[j], order[i])
  }

  /** The steps deliver a persona-scoped completion of each entry in turn. */
  predicate Feeds(id: string, steps: seq<Step>, order: seq<Persona>) {
    && |steps| == |order|
    && forall i :: 0 <= i < |steps| ==>
         steps[i].Process? && steps[i].env.event == PersonaCompleted(order[i]) && steps[i].env.aggregateID != id
  }

  ghost predicate Completing(registry: Registry, id: string, log: seq<Envelope>, step: Step) {
    exists e :: e in StepPublished(registry, id, log, step) && e.event.WorkflowCompleted?
  }

  ghost predicate GatesInOrder(d: WorkflowDef, order: seq<Persona>, s: AggState) {
    forall a :: a in s.feedbackPending ==>
      s.feedbackPending[a] in d.required && DeliveredBefore(order, s.feedbackPending[a], a)
  }

  ghost predicate Fed(d: WorkflowDef, s: AggState, order: seq<Persona>, k: int) {
    && s.status == Running && s.def == Some(d) && GatesInOrder(d, order, s)
    && forall i :: 0 <= i < k <= |order| ==> order[i] in s.completed
  }

  lemma GatesComeFromLog(registry: Registry, id: string, log: seq<Envelope>, d: WorkflowDef, order: seq<Persona>)
    requires FeedbackInOrder(d, order, log)
    ensures GatesInOrder(d, order, Load(registry, id, log))
  {
    hide Load;
    var s := Load(registry, id, log);
    forall a | a in s.feedbackPending
      ensures s.feedbackPending[a] in d.required && DeliveredBefore(order, s.feedbackPending[a], a)
    {
      LoadMeaning(registry, id, log, a, s.feedbackPending[a], "", Fingerprint("", multiset{}));
      var i :| GateAt(log, a, s.feedbackPending[a], i);
    }
  }

  lemma NotStaleInOrder(d: WorkflowDef, s: AggState, order: seq<Persona>, k: nat)
    requires k < |order| && Fed(d, s, order, k)
    requires forall p :: p in d.required ==> p in order
    ensures !IsStale(s, order[k])
  {
    if order[k] in s.feedbackPending {
      var t := s.feedbackPending[order[k]];
      var a :| 0 <= a < |order| && order[a] == t;
      assert a < k;
      assert t in s.completed;
    }
  }

  /** One delivery on the loaded state: it leaves the next entry complete and
      everything else in place. */
  lemma FeedState(d: WorkflowDef, s: AggState, order: seq<Persona>, k: nat, env: Envelope)
    requires k < |order| && Fed(d, s, order, k)
    requires forall p :: p in d.required ==> p in order
    requires env.event == PersonaCompleted(order[k]) && env.aggregateID != s.id
    ensures Fed(d, ApplyAll(s, TrackingEvents(s, env)), order, k + 1)
  {
    hide DeliveredBefore, IsCategoryReviewer;
    NotStaleInOrder(d, s, order, k);
    TrackedState(s, env);
  }

  /** One delivery in the log: it completes the workflow, or it is stored and
      leaves the next entry complete. */
  lemma FeedStep(registry: Registry, id: string, log: seq<Envelope>, d: WorkflowDef, order: seq<Persona>, k: nat,
                 step: Step)
    requires k < |order| && Fed(d, Load(registry, id, log), order, k)
    requires forall p :: p in d.required ==> p in order
    requires step.Process? && step.env.event == PersonaCompleted(order[k]) && step.env.aggregateID != id
    ensures Completing(registry, id, log, step)
            || (k + 1 < |order| && Fed(d, Load(registry, id, Next(registry, id, log, step)), order, k + 1))
  {
    hide Load, DeliveredBefore, Tracking, ApplyEvent;
    var s := Load(registry, id, log);
    var env := step.env;
    LoadMeaning(registry, id, log, "", "", "", Fingerprint("", multiset{}));
    FeedState(d, s, order, k, env);
    TrackedState(s, env);
    var s1 := ApplyAll(s, TrackingEvents(s, env));
    var decided := MaybeCompleted(s1, env);
    assert StepPublished(registry, id, log, step) == decided;
    assert k + 1 == |order| ==> AllRequiredDone(s1);
    if decided != [] {
      assert decided[0].event.WorkflowCompleted?;
    } else {
      var stored := Stamp(id, |log|, TrackingEvents(s, env));
      assert Next(registry, id, log, step) == log + stored;
      StampedTrackingLoads(registry, id, log, env);
    }
  }

  /** The stamped copy of the tracking event loads to the state the step
      decided on, up to its version. */
  lemma StampedTrackingLoads(registry: Registry, id: string, log: seq<Envelope>, env: Envelope)
    requires env.event.PersonaCompleted?
    ensures var s := Load(registry, id, log);
      var s1 := ApplyAll(s, TrackingEvents(s, env));
      var s2 := Load(registry, id, log + Stamp(id, |log|, TrackingEvents(s, env)));
      s2 == s1.(version := s2.version)
  {
    hide Load, IsStale, CompletedAfter, GatesAfter;
    var s := Load(registry, id, log);
    TrackedState(s, env);
    var stored := Stamp(id, |log|, TrackingEvents(s, env));
    if Tracking(s, env).Some? {
      LoadSnoc(registry, id, log, stored[0]);
      assert stored == [stored[0]];
    } else {
      assert log + stored == log;
    }
  }

  lemma RunSnoc(registry: Registry, id: string, log: seq<Envelope>, steps: seq<Step>, k: nat)
    requires k < |steps|
    ensures Run(registry, id, log, steps[..k + 1])
            == Next(registry, id, Run(registry, id, log, steps[..k]), steps[k])
  {
    assert steps[..k + 1][..k] == steps[..k];
  }

  /** If every feedback sent required work back to someone delivered before
      its source, then delivering the completions of the required personas in
      that order completes the workflow no later than the last delivery: no
      gate stays shut. */
  lemma GatesCannotWedge(registry: Registry, id: string, log: seq<Envelope>, d: WorkflowDef,
                         order: seq<Persona>, steps: seq<Step>)
    requires Load(registry, id, log).status == Running && Load(registry, id, log).def == Some(d)
    requires FeedbackInOrder(d, order, log)
    requires order != [] && forall p :: p in d.required ==> p in order
    requires Feeds(id, steps, order)
    ensures exists k: nat :: k < |steps| && Completing(registry, id, Run(registry, id, log, steps[..k]), steps[k])
  {
    hide Load, Completing, Run, Next, DeliveredBefore, GatesInOrder;
    GatesComeFromLog(registry, id, log, d, order);
    RunNothing(registry, id, log);
    assert steps[..0] == [];
    var k := 0;
    while true
      invariant k < |steps| && Fed(d, Load(registry, id, Run(registry, id, log, steps[..k])), order, k)
      decreases |steps| - k
    {
      var at := Run(registry, id, log, steps[..k]);
      FeedStep(registry, id, at, d, order, k, steps[k]);
      if Completing(registry, id, at, steps[k]) {
        return;
      }
      RunSnoc(registry, id, log, steps, k);
      k := k + 1;
    }
  }

  /** In particular when every feedback went upstream in the graph and the
      deliveries follow a topological order. */
  lemma UpstreamFeedbackCannotWedge(registry: Registry, id: string, log: seq<Envelope>, d: WorkflowDef,
                                    order: seq<Persona>, steps: seq<Step>)
    requires Load(registry, id, log).status == Running && Load(registry, id, log).def == Some(d)
    requires FeedbackGoesUpstream(d, log)
    requires order != [] && TopologicalOrder(d.graph, order)
    requires forall p :: p in d.required ==> p in order
    requires Feeds(id, steps, order)
    ensures exists k: nat :: k < |steps| && Completing(registry, id, Run(registry, id, log, steps[..k]), steps[k])
  {
    hide Load, Completing, Run, Precedes;
    GatesCannotWedge(registry, id, log, d, order, steps);
  }

  lemma RunNothing(registry: Registry, id: string, log: seq<Envelope>)
    ensures Run(registry, id, log, []) == log
  {}

  // ---------------------------------------------------------------------
  // Feedback and its escalation
  // ---------------------------------------------------------------------

  ghost predicate EmitsFeedback(out: seq<Envelope>) {
    exists e :: e in out && e.event.FeedbackGenerated?
  }

  /** The verdict repeats the last one recorded for the same pair, on a target
      that already had a round of feedback. */
  ghost predicate Repeats(log: seq<Envelope>, v: Verdict) {
    && FeedbacksTo(log, v.persona) >= 1
    && LastFailure(log, VerdictKey(v.sourcePersona, v.persona), FingerprintOf(v))
  }

  /** Exactly when a verdict sends work back, in terms of the log that
      precedes it. The verdict's own mirror is not part of that log, so no
      verdict is compared with itself. */
  lemma FeedbackExact(registry: Registry, id: string, log: seq<Envelope>, env: Envelope, c: Choice, v: Verdict)
    requires env.event == VerdictRendered(v)
    ensures var s := Load(registry, id, log);
      EmitsFeedback(StepOutputOf(registry, id, log, env, c).published) <==>
        && LastStatus(log, Running) && s.def.Some?
        && v.outcome == VerdictFail && v.persona in s.def.value.required && !v.advisory
        && !Repeats(log, v)
        && FeedbacksTo(log, v.persona) < s.maxIterations
        && !IsConsolidatedReviewer(s.def.value, v.sourcePersona)
  {
    hide Load, FingerprintOf, VerdictKey;
    var s := Load(registry, id, log);
    LoadMeaning(registry, id, log, v.persona, "", VerdictKey(v.sourcePersona, v.persona), FingerprintOf(v));
    VerdictDecided(registry, id, log, env, c, v);
    hide StepOutputOf;
    var out := DecideVerdict(s, env, v);
    if out != [] {
      assert out[0] in out;
    }
  }

  /** A persona-scoped verdict leaves its mirror at the end of the log. */
  lemma VerdictMirrored(registry: Registry, id: string, log: seq<Envelope>, env: Envelope, c: Choice, v: Verdict)
    requires env.event == VerdictRendered(v) && env.aggregateID != id
    ensures var log' := Next(registry, id, log, Process(env, c));
      |log'| > |log| && log'[|log'| - 1].event == VerdictTracked(v)
  {
    hide Load, Decide, ApplyAll;
    LoadMeaning(registry, id, log, "", "", "", Fingerprint("", multiset{}));
    TrackedState(Load(registry, id, log), env);
  }

  /** A verdict is decided on the state as loaded. */
  lemma VerdictDecided(registry: Registry, id: string, log: seq<Envelope>, env: Envelope, c: Choice, v: Verdict)
    requires env.event == VerdictRendered(v)
    ensures StepOutputOf(registry, id, log, env, c).published == DecideVerdict(Load(registry, id, log), env, v)
  {
    hide Load, DecideVerdict, ApplyAll;
    TrackedState(Load(registry, id, log), env);
  }

  /** Of two successive failing verdicts of the same pair with the same
      summary and the same bag of issue descriptions, whatever steps lie in
      between, the second never sends work back once the target has had a
      round of feedback: if it is acted on at all, it pauses the workflow. */
  lemma RepeatedVerdictEscalates(registry: Registry, id: string, log: seq<Envelope>,
                                 env1: Envelope, c1: Choice, v1: Verdict, between: seq<Step>,
                                 env2: Envelope, c2: Choice, v2: Verdict)
    requires env1.event == VerdictRendered(v1) && env1.aggregateID != id
    requires env2.event == VerdictRendered(v2)
    requires NamesBoth(v1) && v1.outcome == VerdictFail
    requires v2.sourcePersona == v1.sourcePersona && v2.persona == v1.persona && v2.summary == v1.summary
    requires multiset(Descriptions(v2.issues)) == multiset(Descriptions(v1.issues))
    requires var log1 := Next(registry, id, log, Process(env1, c1));
      var log2 := Run(registry, id, log1, between);
      && (forall i :: |log1| <= i < |log2| ==> !RecordsVerdict(log2[i].event, VerdictKey(v1.sourcePersona, v1.persona)))
      && FeedbacksTo(log2, v1.persona) >= 1
    ensures var log1 := Next(registry, id, log, Process(env1, c1));
      var log2 := Run(registry, id, log1, between);
      var out := StepOutputOf(registry, id, log2, env2, c2).published;
      && !EmitsFeedback(out)
      && (out == [] || (|out| == 1 && out[0].event.WorkflowPaused?))
  {
    hide Load, FingerprintOf, VerdictKey, Repeats, Next, StepOutputOf;
    var log1 := Next(registry, id, log, Process(env1, c1));
    var log2 := Run(registry, id, log1, between);
    var key := VerdictKey(v1.sourcePersona, v1.persona);
    SameFingerprint(v1, v2);
    VerdictMirrored(registry, id, log, env1, c1, v1);
    RunGrows(registry, id, log1, between);
    assert LastFailureAt(log2, key, FingerprintOf(v2), |log1| - 1);
    LoadMeaning(registry, id, log2, v2.persona, "", key, FingerprintOf(v2));
    assert IsRepeat(Load(registry, id, log2), v2);
    VerdictDecided(registry, id, log2, env2, c2, v2);
  }

  lemma SameFingerprint(v1: Verdict, v2: Verdict)
    requires v2.summary == v1.summary && multiset(Descriptions(v2.issues)) == multiset(Descriptions(v1.issues))
    ensures FingerprintOf(v1) == FingerprintOf(v2)
  {}
}
