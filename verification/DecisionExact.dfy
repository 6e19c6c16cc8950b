/** What the engine publishes for each incoming event, in terms of the log it
    loaded: the whole outcome, payload included. */
module DecisionExact {
  import opened Events
  import opened WorkflowGraph
  import opened Aggregate
  import opened Replay
  import opened EngineStep

  function EventsOf(out: seq<Envelope>): (r: seq<Event>)
    ensures |r| == |out| && forall i :: 0 <= i < |out| ==> r[i] == out[i].event
  {
    seq(|out|, i requires 0 <= i < |out| => out[i].event)
  }

  /** What the step publishes. */
  ghost function Published(registry: Registry, id: string, log: seq<Envelope>, env: Envelope, c: Choice): seq<Event> {
    EventsOf(StepOutputOf(registry, id, log, env, c).published)
  }

  /** An event that leaves no tracking copy is decided on the state as loaded. */
  lemma DecidedAsLoaded(registry: Registry, id: string, log: seq<Envelope>, env: Envelope, c: Choice)
    requires !env.event.PersonaCompleted? && !env.event.PersonaFailed?
    ensures Published(registry, id, log, env, c) == EventsOf(Decide(Load(registry, id, log), env, c))
  {
    hide Load, Decide, ApplyAll;
    TrackedState(Load(registry, id, log), env);
  }

  // ---------------------------------------------------------------------
  // Verdicts
  // ---------------------------------------------------------------------

  /** The bag of descriptions, item by item. */
  function Said(issues: seq<Issue>): multiset<string> {
    if issues == [] then multiset{}
    else Said(issues[..|issues| - 1]) + multiset{issues[|issues| - 1].description}
  }

  lemma {:induction false} SaidIsBag(issues: seq<Issue>)
    ensures multiset(Descriptions(issues)) == Said(issues)
  {
    if issues != [] {
      var init, last := issues[..|issues| - 1], issues[|issues| - 1];
      SaidIsBag(init);
      assert Descriptions(issues) == Descriptions(init) + [last.description];
    }
  }

  /** Two verdicts have the same fingerprint exactly when they have the same
      summary and the same bag of issue descriptions. */
  lemma FingerprintIff(a: Verdict, b: Verdict)
    ensures FingerprintOf(a) == FingerprintOf(b) <==> a.summary == b.summary && Said(a.issues) == Said(b.issues)
  {
    SaidIsBag(a.issues);
    SaidIsBag(b.issues);
  }

  /** The event records a verdict under the joined names of this pair. */
  predicate RecordsPair(e: Event, v: Verdict) {
    && e.VerdictTracked? && e.trackedVerdict.sourcePersona != "" && e.trackedVerdict.persona != ""
    && e.trackedVerdict.sourcePersona + "|" + e.trackedVerdict.persona == v.sourcePersona + "|" + v.persona
  }

  /** The last verdict recorded under the pair of v failed, and said the same. */
  ghost predicate SaidBeforeAt(log: seq<Envelope>, v: Verdict, i: int) {
    && 0 <= i < |log| && RecordsPair(log[i].event, v)
    && log[i].event.trackedVerdict.outcome == VerdictFail
    && log[i].event.trackedVerdict.summary == v.summary && Said(log[i].event.trackedVerdict.issues) == Said(v.issues)
    && forall j :: i < j < |log| ==> !RecordsPair(log[j].event, v)
  }

  ghost predicate SaidBefore(log: seq<Envelope>, v: Verdict) {
    exists i :: SaidBeforeAt(log, v, i)
  }

  lemma SaidBeforeIff(log: seq<Envelope>, v: Verdict)
    ensures SaidBefore(log, v) <==> LastFailure(log, VerdictKey(v.sourcePersona, v.persona), FingerprintOf(v))
  {
    var key, fp := VerdictKey(v.sourcePersona, v.persona), FingerprintOf(v);
    forall i | 0 <= i < |log| ensures SaidBeforeAt(log, v, i) <==> LastFailureAt(log, key, fp, i) {
      assert forall j :: 0 <= j < |log| ==> (RecordsPair(log[j].event, v) <==> RecordsVerdict(log[j].event, key));
      if log[i].event.VerdictTracked? {
        FingerprintIff(log[i].event.trackedVerdict, v);
      }
    }
  }

  /** Joined names tell pairs apart when the source's name has no bar. (With
      one they may not: "a|b" judging "c" reads like "a" judging "b|c".) */
  lemma PairsToldApart(e: Event, v: Verdict)
    requires e.VerdictTracked? && '|' !in e.trackedVerdict.sourcePersona && '|' !in v.sourcePersona
    ensures RecordsPair(e, v) <==>
      && e.trackedVerdict.sourcePersona == v.sourcePersona != ""
      && e.trackedVerdict.persona == v.persona != ""
  {
    var (a, b) := (e.trackedVerdict.sourcePersona, v.sourcePersona);
    var (x, y) := (e.trackedVerdict.persona, v.persona);
    if a + "|" + x == b + "|" + y {
      FirstBar(a, x);
      FirstBar(b, y);
      assert |a| == |b|;
      assert a == (a + "|" + x)[..|a|] && b == (b + "|" + y)[..|b|];
      assert x == (a + "|" + x)[|a| + 1..] && y == (b + "|" + y)[|b| + 1..];
    }
  }

  lemma FirstBar(a: string, x: string)
    requires '|' !in a
    ensures var s := a + "|" + x;
      s[|a|] == '|' && forall i :: 0 <= i < |a| ==> s[i] != '|'
  {
    assert forall i :: 0 <= i < |a| ==> (a + "|" + x)[i] == a[i] && a[i] in a;
  }

  /** The whole outcome of a verdict. */
  ghost predicate VerdictOutcome(log: seq<Envelope>, d: WorkflowDef, max: int, v: Verdict, out: seq<Event>) {
    var rounds := FeedbacksTo(log, v.persona);
    if v.advisory then out == [WorkflowPaused("", "", "")]
    else if rounds >= 1 && SaidBefore(log, v) then out == [WorkflowPaused(v.persona, v.sourcePersona, "")]
    else if rounds >= max then
      out == [if d.escalateOnMaxIter then WorkflowPaused(v.persona, v.sourcePersona, "")
              else WorkflowFailed(v.persona, Unspecified)]
    else if d.synchronousFeedback && v.sourcePersona != "" && v.sourcePersona in d.consolidatedReviewers then out == []
    else
      out == [FeedbackGenerated(Feedback(v.persona, v.sourcePersona, rounds + 1,
                                         v.issues, v.summary, v.rawDiagnostics))]
  }

  /** A verdict is acted on exactly when it failed a required persona of a
      running workflow, and then: an advisory one pauses for review; one that
      says the same as last time pauses for the pair; an exhausted limit
      pauses for the pair or fails the target; a reviewer in the barrier waits
      for its peers; and any other sends the work back, with everything the
      verdict said. */
  lemma VerdictExact(registry: Registry, id: string, log: seq<Envelope>, env: Envelope, c: Choice, v: Verdict)
    requires env.event == VerdictRendered(v)
    ensures var s := Load(registry, id, log);
      var out := Published(registry, id, log, env, c);
      if LastStatus(log, Running) && s.def.Some? && v.outcome == VerdictFail && v.persona in s.def.value.required
      then VerdictOutcome(log, s.def.value, s.maxIterations, v, out)
      else out == []
  {
    hide Load, FingerprintOf, VerdictKey, SaidBefore, Published;
    var s := Load(registry, id, log);
    var key := VerdictKey(v.sourcePersona, v.persona);
    LoadMeaning(registry, id, log, v.persona, "", key, FingerprintOf(v));
    SaidBeforeIff(log, v);
    DecidedAsLoaded(registry, id, log, env, c);
    assert Decide(s, env, c) == DecideVerdict(s, env, v);
    assert IsRepeat(s, v) <==> FeedbacksTo(log, v.persona) >= 1 && SaidBefore(log, v);
  }

  // ---------------------------------------------------------------------
  // Requests, hints and budgets
  // ---------------------------------------------------------------------

  /** A request starts the workflow that the log names, unless something
      happened to it first; an unknown workflow fails. */
  lemma RequestExact(registry: Registry, id: string, log: seq<Envelope>, env: Envelope, c: Choice)
    requires env.event.WorkflowRequested?
    ensures var def := Load(registry, id, log).def;
      Published(registry, id, log, env, c) ==
        if def.None? then [WorkflowFailed("", Unspecified)]
        else if LastStatus(log, Requested) || NoLifecycle(log) then [WorkflowStarted(RequestedWorkflow(log))]
        else []
  {
    hide Load, LastStatus, RequestedWorkflow, Published, NoLifecycle;
    LoadStatus(registry, id, log, Requested);
    LoadRest(registry, id, log, "", CachedVerdict("", ""));
    DecidedAsLoaded(registry, id, log, env, c);
  }

  function HintThreshold(def: Option<WorkflowDef>): real {
    if def.Some? && def.value.hintThreshold > 0.0 then def.value.hintThreshold else 0.7
  }

  /** A hint on a running workflow is approved when it is confident enough and
      names no blocker, and pauses for review otherwise. */
  lemma HintExact(registry: Registry, id: string, log: seq<Envelope>, env: Envelope, c: Choice)
    requires env.event.HintEmitted?
    ensures var e := env.event;
      Published(registry, id, log, env, c) ==
        if !LastStatus(log, Running) then []
        else if e.confidence >= HintThreshold(Load(registry, id, log).def) && e.blockers == []
        then [HintApproved(e.hinter, e.triggerID)]
        else [WorkflowPaused("", "", "")]
  {
    hide Load, LastStatus, Published;
    LoadStatus(registry, id, log, Running);
    DecidedAsLoaded(registry, id, log, env, c);
  }

  /** A rejected hint skips its persona or fails the workflow, if that runs or
      is paused. */
  lemma HintRejectedExact(registry: Registry, id: string, log: seq<Envelope>, env: Envelope, c: Choice)
    requires env.event.HintRejected?
    ensures var e := env.event;
      Published(registry, id, log, env, c) ==
        if !LastStatus(log, Running) && !LastStatus(log, Paused) then []
        else match e.action
          case RejectSkip => [PersonaCompleted(e.rejected)]
          case RejectFail => [WorkflowFailed(e.rejected, Unspecified)]
          case RejectOther => []
  {
    hide Load, LastStatus, Published;
    LoadStatus(registry, id, log, Running);
    LoadStatus(registry, id, log, Paused);
    DecidedAsLoaded(registry, id, log, env, c);
  }

  /** An exceeded token budget fails the workflow whatever its status; an event
      without a decision of its own publishes nothing. */
  lemma OtherExact(registry: Registry, id: string, log: seq<Envelope>, env: Envelope, c: Choice)
    requires var e := env.event;
      && !e.WorkflowRequested? && !e.PersonaCompleted? && !e.PersonaFailed? && !e.VerdictRendered?
      && !e.WorkflowResumed? && !e.HintEmitted? && !e.HintRejected?
    ensures Published(registry, id, log, env, c) ==
      if env.event.TokenBudgetExceeded? then [WorkflowFailed("", Unspecified)] else []
  {
    hide Load, Published;
    DecidedAsLoaded(registry, id, log, env, c);
  }

  // ---------------------------------------------------------------------
  // Resumes
  // ---------------------------------------------------------------------

  /** The verdict on p that stands: the last one recorded, if it failed. */
  function Standing(log: seq<Envelope>, p: Persona): CachedVerdict {
    if log == [] then CachedVerdict("", "")
    else
      var e := log[|log| - 1].event;
      if Judges(e, p) then
        if e.trackedVerdict.outcome == VerdictFail
        then CachedVerdict(e.trackedVerdict.sourcePersona, e.trackedVerdict.rawDiagnostics)
        else CachedVerdict("", "")
      else Standing(log[..|log| - 1], p)
  }

  lemma {:induction false} StandingIsCached(s: AggState, log: seq<Envelope>, p: Persona)
    requires s.lastFailing == map[]
    ensures CachedFor(ApplyAll(s, log), p) == Standing(log, p)
  {
    hide CompletedAfter, SkippedAfter, CountsAfter, GatesAfter, RetriesAfter, FingerprintsAfter;
    if log != [] {
      StandingIsCached(s, log[..|log| - 1], p);
    }
  }

  lemma {:induction false} CountedIffSentBack(s: AggState, log: seq<Envelope>, p: Persona)
    requires s.feedbackCount == map[]
    ensures p in ApplyAll(s, log).feedbackCount <==> FeedbacksTo(log, p) >= 1
    ensures p in ApplyAll(s, log).feedbackCount ==> ApplyAll(s, log).feedbackCount[p] == FeedbacksTo(log, p)
  {
    hide CompletedAfter, SkippedAfter, GatesAfter, RetriesAfter, FingerprintsAfter, FailingAfter;
    if log != [] {
      CountedIffSentBack(s, log[..|log| - 1], p);
    }
  }

  /** What the resume reads besides the pause. */
  lemma LoadForResume(registry: Registry, id: string, log: seq<Envelope>, p: Persona)
    ensures var s := Load(registry, id, log);
      && CachedFor(s, p) == Standing(log, p)
      && CountOf(s.feedbackCount, p) == FeedbacksTo(log, p)
      && (p in Exhausted(s) <==> FeedbacksTo(log, p) >= 1 && FeedbacksTo(log, p) >= s.maxIterations)
  {
    var s0 := Attach(NewAggregate(id), PreAttached(registry, log));
    StandingIsCached(s0, log, p);
    CountedIffSentBack(s0, log, p);
  }

  /** The feedback that sends p back to work on a resume. */
  function SentBack(log: seq<Envelope>, p: Persona, source: Persona): Event {
    FeedbackGenerated(Feedback(p, source, FeedbacksTo(log, p) + 1, [],
                               "re-triggered after operator guidance", Standing(log, p).rawDiagnostics))
  }

  /** p used up its rounds. */
  predicate UsedUp(log: seq<Envelope>, max: int, p: Persona) {
    FeedbacksTo(log, p) >= 1 && FeedbacksTo(log, p) >= max
  }

  ghost predicate ResumeOutcome(log: seq<Envelope>, def: Option<WorkflowDef>, max: int, pick: Persona,
                                out: seq<Event>)
  {
    var (retarget, source, retryFrom) := PausePayload(log);
    if retryFrom != "" && def.Some? && retryFrom in def.value.graph then
      out == [WorkflowRetried(retryFrom, Invalidated(def.value, retryFrom), false)]
    else if retarget != "" && def.Some? && retarget in def.value.required then
      out == [SentBack(log, retarget, if source != "" then source else Standing(log, retarget).sourcePersona)]
    else if UsedUp(log, max, pick) then
      out == [SentBack(log, pick, Standing(log, pick).sourcePersona)]
    else out == []
  }

  /** A resume retries what the last pause asked to retry, or sends back whom
      it asked to send back; failing both, it sends back a persona that used up
      its rounds, if there is one. */
  lemma ResumeExact(registry: Registry, id: string, log: seq<Envelope>, env: Envelope, c: Choice)
    requires env.event.WorkflowResumed?
    ensures var s := Load(registry, id, log);
      && ResumeOutcome(log, s.def, s.maxIterations, c.pick, Published(registry, id, log, env, c))
      && (ValidPick(s, c.pick) <==>
            (exists p :: UsedUp(log, s.maxIterations, p)) ==> UsedUp(log, s.maxIterations, c.pick))
  {
    hide Load, PausePayload, Standing, Published, Exhausted, CachedFor, Invalidated, UsedUp;
    var s := Load(registry, id, log);
    LoadRest(registry, id, log, "", CachedVerdict("", ""));
    forall p ensures p in Exhausted(s) <==> UsedUp(log, s.maxIterations, p) {
      LoadForResume(registry, id, log, p);
      UsedUpIs(log, s.maxIterations, p);
    }
    LoadForResume(registry, id, log, s.retarget);
    LoadForResume(registry, id, log, c.pick);
    DecidedAsLoaded(registry, id, log, env, c);
    ResumeOnState(s, env, c);
    if Exhausted(s) != {} {
      var p :| p in Exhausted(s);
      assert UsedUp(log, s.maxIterations, p);
    }
  }

  lemma UsedUpIs(log: seq<Envelope>, max: int, p: Persona)
    ensures UsedUp(log, max, p) <==> FeedbacksTo(log, p) >= 1 && FeedbacksTo(log, p) >= max
  {}

  lemma ResumeOnState(s: AggState, env: Envelope, c: Choice)
    requires env.event.WorkflowResumed?
    ensures EventsOf(Decide(s, env, c)) ==
      if s.retryFromPhase != "" && s.def.Some? && s.retryFromPhase in s.def.value.graph then
        [WorkflowRetried(s.retryFromPhase, Invalidated(s.def.value, s.retryFromPhase), false)]
      else if s.retarget != "" && s.def.Some? && s.retarget in s.def.value.required then
        [ResumeFeedback(s, s.retarget,
                        if s.retargetSource == "" then CachedFor(s, s.retarget).sourcePersona else s.retargetSource)]
      else if c.pick in Exhausted(s) then [ResumeFeedback(s, c.pick, CachedFor(s, c.pick).sourcePersona)]
      else []
  {
    hide Invalidated, ResumeFeedback, Exhausted, CachedFor;
  }

  /** The limit a resume leaves on the object: raised to the round it sends
      back, when that exceeds it, and never otherwise. */
  lemma LimitRaisedJustEnough(s: AggState, env: Envelope, pick: Persona, gone: set<Persona>)
    ensures var out := EventsOf(DecideResumed(s, env, pick, gone));
      var max := ResumedMax(s, pick);
      if out != [] && out[0].FeedbackGenerated? && out[0].feedback.iteration > s.maxIterations
      then max == out[0].feedback.iteration else max == s.maxIterations
  {
    hide CachedFor;
  }

  // ---------------------------------------------------------------------
  // Pauses
  // ---------------------------------------------------------------------

  /** A pause that no start, resume or retry followed. */
  ghost predicate PauseStands(log: seq<Envelope>, i: int) {
    && 0 <= i < |log| && log[i].event.WorkflowPaused?
    && forall j :: i < j < |log| ==>
         !log[j].event.WorkflowStarted? && !log[j].event.WorkflowResumed? && !log[j].event.WorkflowRetried?
  }

  /** Between a pause and the next start, resume or retry, no verdict, no
      completion and no failure makes the engine publish anything. */
  lemma PausedStaysQuiet(registry: Registry, id: string, log: seq<Envelope>, env: Envelope, c: Choice, i: nat)
    requires PauseStands(log, i)
    requires env.event.VerdictRendered? || env.event.PersonaCompleted? || env.event.PersonaFailed?
    ensures Published(registry, id, log, env, c) == []
  {
    hide Load, FingerprintOf, VerdictKey, IsCategoryReviewer;
    var s := Load(registry, id, log);
    LoadStatus(registry, id, log, Running);
    StandingPauseRunsNot(log, i);
    NotRunningDecidesNothing(s, env, c);
  }

  lemma StandingPauseRunsNot(log: seq<Envelope>, i: nat)
    requires PauseStands(log, i)
    ensures !LastStatus(log, Running)
  {
    forall k ensures !LastStatusAt(log, Running, k) {
      assert IsLifecycle(log[i].event);
    }
  }

  lemma NotRunningDecidesNothing(s: AggState, env: Envelope, c: Choice)
    requires s.status != Running
    requires env.event.VerdictRendered? || env.event.PersonaCompleted? || env.event.PersonaFailed?
    ensures StepOn(s, env, c).published == []
  {
    hide IsCategoryReviewer, FingerprintOf, VerdictKey;
    TrackedState(s, env);
    var s1 := ApplyAll(s, TrackingEvents(s, env));
    assert s1.status == s.status;
  }

  // ---------------------------------------------------------------------
  // Completion and addressing
  // ---------------------------------------------------------------------

  /** Everything a step stores or publishes belongs to the aggregate and
      carries the correlation of the event it answers. */
  lemma Addressed(registry: Registry, id: string, log: seq<Envelope>, env: Envelope, c: Choice)
    ensures var out := StepOutputOf(registry, id, log, env, c);
      && (forall e :: e in out.stored ==> e.aggregateID == id && e.correlationID == env.correlationID)
      && (forall e :: e in out.published ==> e in out.stored)
  {
    hide Load, Decide, ApplyEvent, Tracking;
    var s := Load(registry, id, log);
    LoadMeaning(registry, id, log, "", "", "", Fingerprint("", multiset{}));
    TrackedState(s, env);
    var s1 := ApplyAll(s, TrackingEvents(s, env));
    SameID(s, env);
    DecideAddressed(s1, env, c);
  }

  lemma SameID(s: AggState, env: Envelope)
    ensures ApplyAll(s, TrackingEvents(s, env)).id == s.id
  {
    ApplyAllFrame(s, TrackingEvents(s, env));
  }

  lemma DecideAddressed(s: AggState, env: Envelope, c: Choice)
    ensures forall e :: e in Decide(s, env, c) ==> e.aggregateID == s.id && e.correlationID == env.correlationID
  {
    hide IsCategoryReviewer, Invalidated, FingerprintOf, VerdictKey, ResumeFeedback, AllRequiredDone;
  }

  /** What is stored of a persona completion besides the decision: its tracking
      copy, exactly when the persona is not done yet and no gate holds it back. */
  lemma TrackedExact(registry: Registry, id: string, log: seq<Envelope>, env: Envelope, p: Persona)
    requires env.event == PersonaCompleted(p) && env.aggregateID != id
    ensures var def := PreAttached(registry, log);
      EventsOf(TrackingEvents(Load(registry, id, log), env)) ==
        if Done(def, log, p) || (exists t :: Gated(log, p, t) && !Done(def, log, t)) then [] else [PersonaTracked(p)]
  {
    hide Load, Done, Gated;
    var s := Load(registry, id, log);
    var def := PreAttached(registry, log);
    forall t ensures
      && (t in s.completed <==> Done(def, log, t))
      && (HasGate(s.feedbackPending, p, t) <==> Gated(log, p, t))
      && s.id == id
    {
      LoadMeaning(registry, id, log, t, t, "", Fingerprint("", multiset{}));
      LoadMeaning(registry, id, log, p, t, "", Fingerprint("", multiset{}));
    }
    assert s.id == id by { LoadMeaning(registry, id, log, "", "", "", Fingerprint("", multiset{})); }
    if IsStale(s, p) {
      assert HasGate(s.feedbackPending, p, s.feedbackPending[p]);
    }
  }

  /** The tracking copy of a persona failure: exactly when the persona is
      required and the workflow runs. */
  lemma FailureTrackedExact(registry: Registry, id: string, log: seq<Envelope>, env: Envelope, f: Failure)
    requires env.event == PersonaFailed(f) && env.aggregateID != id
    ensures var def := Load(registry, id, log).def;
      EventsOf(TrackingEvents(Load(registry, id, log), env)) ==
        if LastStatus(log, Running) && def.Some? && f.persona in def.value.required
        then [PersonaFailedTracked(f)] else []
  {
    hide Load, LastStatus;
    LoadMeaning(registry, id, log, "", "", "", Fingerprint("", multiset{}));
  }

  /** What a step stores: the tracking copy first, then what it publishes, and
      last the copy of a verdict that was rendered elsewhere. Nothing else
      leaves a copy. */
  lemma StoredExact(registry: Registry, id: string, log: seq<Envelope>, env: Envelope, c: Choice)
    ensures var tracking := EventsOf(TrackingEvents(Load(registry, id, log), env));
      && EventsOf(StepOutputOf(registry, id, log, env, c).stored) ==
           tracking + Published(registry, id, log, env, c)
           + (if env.event.VerdictRendered? && env.aggregateID != id then [VerdictTracked(env.event.verdict)] else [])
      && (env.aggregateID == id || !(env.event.PersonaCompleted? || env.event.PersonaFailed?) ==> tracking == [])
  {
    hide Load, Decide, ApplyEvent, Tracking;
    var s := Load(registry, id, log);
    LoadMeaning(registry, id, log, "", "", "", Fingerprint("", multiset{}));
    SameID(s, env);
    var tracking := TrackingEvents(s, env);
    var s1 := ApplyAll(s, tracking);
    var decided := Decide(s1, env, c);
    EventsConcat(tracking + decided, Mirror(s1, env, |decided|));
    EventsConcat(tracking, decided);
    NoTracking(s, env);
  }

  lemma NoTracking(s: AggState, env: Envelope)
    ensures env.aggregateID == s.id || !(env.event.PersonaCompleted? || env.event.PersonaFailed?) ==>
      TrackingEvents(s, env) == []
  {}

  lemma EventsConcat(a: seq<Envelope>, b: seq<Envelope>)
    ensures EventsOf(a + b) == EventsOf(a) + EventsOf(b)
  {}

  /** The completion that the engine publishes counts the absorbed reviewers. */
  lemma CompletionCounts(registry: Registry, id: string, log: seq<Envelope>, env: Envelope, c: Choice)
    requires env.event.PersonaCompleted?
    ensures var out := Published(registry, id, log, env, c);
      out != [] ==> out == [WorkflowCompleted(|Load(registry, id, log).skipped|)]
  {
    hide Load, IsCategoryReviewer;
    TrackedState(Load(registry, id, log), env);
  }

  /** Persona-scoped lifecycle events that name a correlation are handled on
      the aggregate of that correlation, all others on their own. */
  lemma RoutingExact(env: Envelope)
    ensures ResolveAggregateID(env) ==
      match env.event
      case PersonaCompleted(_) => Correlated(env)
      case PersonaFailed(_) => Correlated(env)
      case VerdictRendered(_) => Correlated(env)
      case WorkflowCancelled => Correlated(env)
      case WorkflowPaused(_, _, _) => Correlated(env)
      case WorkflowResumed => Correlated(env)
      case WorkflowRetried(_, _, _) => Correlated(env)
      case HintEmitted(_, _, _, _) => Correlated(env)
      case HintRejected(_, _) => Correlated(env)
      case _ => env.aggregateID
  {}

  function Correlated(env: Envelope): string {
    if env.correlationID == "" then env.aggregateID else env.correlationID
  }
}
