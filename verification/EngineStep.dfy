/** One engine step on a workflow's log (tryProcessDecision) and runs of such
    steps interleaved with arbitrary external appends. */
module EngineStep {
  import opened Events
  import opened WorkflowGraph
  import opened Aggregate
  import opened Replay

  // ---------------------------------------------------------------------
  // Routing
  // ---------------------------------------------------------------------

  predicate ByCorrelation(e: Event) {
    || e.PersonaCompleted? || e.PersonaFailed? || e.VerdictRendered?
    || e.WorkflowCancelled? || e.WorkflowPaused? || e.WorkflowResumed?
    || e.WorkflowRetried? || e.HintEmitted? || e.HintRejected?
  }

  /** The aggregate an incoming event belongs to. */
  function ResolveAggregateID(env: Envelope): string {
    if ByCorrelation(env.event) && env.correlationID != "" then env.correlationID else env.aggregateID
  }

  // ---------------------------------------------------------------------
  // The step
  // ---------------------------------------------------------------------

  /** The storage-only copy the step records before it decides. */
  function Tracking(s: AggState, env: Envelope): Option<Event> {
    if env.aggregateID == s.id then None
    else match env.event
      case PersonaCompleted(p) =>
        if p !in s.completed && !IsStale(s, p) then Some(PersonaTracked(p)) else None
      case PersonaFailed(f) =>
        if s.status == Running && IsRequired(s, f.persona) then Some(PersonaFailedTracked(f)) else None
      case _ => None
  }

  function TrackingEvents(s: AggState, env: Envelope): seq<Envelope> {
    match Tracking(s, env)
    case Some(e) => Emit(s, env, e)
    case None => []
  }

  /** The storage-only copy of a verdict, recorded after the decision. */
  function Mirror(s: AggState, env: Envelope, decided: nat): seq<Envelope> {
    if env.event.VerdictRendered? && env.aggregateID != s.id
    then [Envelope(s.id, s.version + decided + 1, env.correlationID, VerdictTracked(env.event.verdict))]
    else []
  }

  datatype StepOutput = StepOutput(stored: seq<Envelope>, published: seq<Envelope>)

  /** What one step computes from the state it loaded. */
  ghost function StepOn(s: AggState, env: Envelope, c: Choice): StepOutput {
    var tracking := TrackingEvents(s, env);
    var s1 := ApplyAll(s, tracking);
    var decided := Decide(s1, env, c);
    StepOutput(tracking + decided + Mirror(s1, env, |decided|), decided)
  }

  ghost function StepOutputOf(registry: Registry, id: string, log: seq<Envelope>, env: Envelope, c: Choice)
    : StepOutput
  {
    StepOn(Load(registry, id, log), env, c)
  }

  // ---------------------------------------------------------------------
  // Stored versions
  // ---------------------------------------------------------------------

  /** What the store writes: the aggregate and the next versions, whatever
      the envelopes carried. */
  function Stamp(id: string, base: nat, events: seq<Envelope>): (r: seq<Envelope>)
    ensures |r| == |events|
  {
    seq(|events|, i requires 0 <= i < |events| =>
      events[i].(aggregateID := id, version := base + i + 1))
  }

  predicate WellStamped(id: string, log: seq<Envelope>) {
    forall i :: 0 <= i < |log| ==> log[i].version == i + 1 && log[i].aggregateID == id
  }

  lemma DecideShape(s: AggState, env: Envelope, c: Choice)
    ensures |Decide(s, env, c)| <= 1
    ensures forall e :: e in Decide(s, env, c) ==> e.aggregateID == s.id && e.version == s.version + 1
  {
    hide IsCategoryReviewer, Invalidated, FingerprintOf, VerdictKey, ResumeFeedback, AllRequiredDone;
  }

  lemma TrackedState(s: AggState, env: Envelope)
    ensures ApplyAll(s, TrackingEvents(s, env)) ==
      if Tracking(s, env).Some? then ApplyEvent(s, Emit(s, env, Tracking(s, env).value)[0]) else s
  {
    hide ApplyEvent, Tracking;
    if Tracking(s, env).Some? {
      var t := TrackingEvents(s, env);
      assert t[..0] == [];
      assert ApplyAll(s, t[..0]) == s;
    }
  }

  /** The versions an engine step stamps on its tracking, decision and mirror
      events are the ones the store assigns on append. */
  lemma VersionsAgree(registry: Registry, id: string, log: seq<Envelope>, env: Envelope, c: Choice)
    requires WellStamped(id, log)
    ensures Load(registry, id, log).version == |log|
    ensures StepOutputOf(registry, id, log, env, c).stored
            == Stamp(id, |log|, StepOutputOf(registry, id, log, env, c).stored)
  {
    hide IsCategoryReviewer, Decide, Tracking, Replayed;
    var s := Load(registry, id, log);
    LoadMeaning(registry, id, log, "", "", "", Fingerprint("", multiset{}));
    TrackedState(s, env);
    var s1 := ApplyAll(s, TrackingEvents(s, env));
    assert s1.id == id && s1.version == |log| + |TrackingEvents(s, env)|;
    DecideShape(s1, env, c);
    var out := StepOutputOf(registry, id, log, env, c).stored;
    forall i | 0 <= i < |out| ensures out[i].version == |log| + i + 1 && out[i].aggregateID == id {
    }
  }

  // ---------------------------------------------------------------------
  // Runs
  // ---------------------------------------------------------------------

  /** A run interleaves engine steps on arbitrary incoming events with
      appends by anyone else. A step that loses the optimistic race stores
      nothing, so it is the run without it. */
  datatype Step =
    | Process(env: Envelope, choice: Choice)
    | Append(events: seq<Envelope>)

  /** The engine processes the step's event on this aggregate. */
  predicate Routed(id: string, step: Step) {
    step.Process? ==> ResolveAggregateID(step.env) == id
  }

  ghost function StepStored(registry: Registry, id: string, log: seq<Envelope>, step: Step): seq<Envelope> {
    match step
    case Process(env, c) => StepOutputOf(registry, id, log, env, c).stored
    case Append(events) => events
  }

  ghost function StepPublished(registry: Registry, id: string, log: seq<Envelope>, step: Step): seq<Envelope> {
    match step
    case Process(env, c) => StepOutputOf(registry, id, log, env, c).published
    case Append(_) => []
  }

  ghost function Next(registry: Registry, id: string, log: seq<Envelope>, step: Step): seq<Envelope> {
    log + Stamp(id, |log|, StepStored(registry, id, log, step))
  }

  /** The log after a run of steps that starts on `log`. */
  ghost function Run(registry: Registry, id: string, log: seq<Envelope>, steps: seq<Step>): seq<Envelope> {
    if steps == [] then log
    else Next(registry, id, Run(registry, id, log, steps[..|steps| - 1]), steps[|steps| - 1])
  }

  lemma {:induction false} RunGrows(registry: Registry, id: string, log: seq<Envelope>, steps: seq<Step>)
    ensures log <= Run(registry, id, log, steps)
  {
    if steps != [] {
      RunGrows(registry, id, log, steps[..|steps| - 1]);
    }
  }

  lemma {:induction false} RunWellStamped(registry: Registry, id: string, log: seq<Envelope>, steps: seq<Step>)
    requires WellStamped(id, log)
    ensures WellStamped(id, Run(registry, id, log, steps))
  {
    if steps != [] {
      RunWellStamped(registry, id, log, steps[..|steps| - 1]);
    }
  }

  /** The replayed version of a run's aggregate is the length of its log. */
  lemma ReplayVersionIsLength(registry: Registry, id: string, steps: seq<Step>)
    ensures Load(registry, id, Run(registry, id, [], steps)).version == |Run(registry, id, [], steps)|
  {
    RunWellStamped(registry, id, [], steps);
    LoadMeaning(registry, id, Run(registry, id, [], steps), "", "", "", Fingerprint("", multiset{}));
  }

  // ---------------------------------------------------------------------
  // Loading one event more
  // ---------------------------------------------------------------------

  lemma {:induction false} PreAttachedSnoc(registry: Registry, log: seq<Envelope>, env: Envelope)
    requires !env.event.WorkflowRequested?
    ensures PreAttached(registry, log + [env]) == PreAttached(registry, log)
  {
    if log == [] {
      assert [env][1..] == [];
    } else {
      assert (log + [env])[1..] == log[1..] + [env];
      PreAttachedSnoc(registry, log[1..], env);
    }
  }

  /** A tracked completion or a retry can be applied before or after the
      definition is attached. */
  lemma LoadSnoc(registry: Registry, id: string, log: seq<Envelope>, env: Envelope)
    requires env.event.PersonaTracked? || env.event.WorkflowRetried?
    ensures Load(registry, id, log + [env]) == ApplyEvent(Load(registry, id, log), env)
  {
    hide OpenGates, DropGates;
    PreAttachedSnoc(registry, log, env);
    assert (log + [env])[..|log|] == log;
  }

  /** A retry at the end of any log: nothing it invalidates is complete, no
      gate mentions an invalidated persona on either side, and every other
      completion and gate is as before. */
  lemma RetryClears(registry: Registry, id: string, log: seq<Envelope>, env: Envelope)
    requires env.event.WorkflowRetried?
    ensures var gone := env.event.invalidated;
      var s, s' := Load(registry, id, log), Load(registry, id, log + [env]);
      && s'.status == Running
      && (forall p :: p in s'.completed <==> p in s.completed && p !in gone)
      && (forall k, t :: HasGate(s'.feedbackPending, k, t) <==>
            HasGate(s.feedbackPending, k, t) && k !in gone && t !in gone)
  {
    hide Load;
    LoadSnoc(registry, id, log, env);
  }
}
