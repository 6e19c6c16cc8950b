/** What a replayed aggregate means in terms of its log alone. Each part of
    the folded state is characterised by the position of the events that
    produced it, in both directions. */
module Replay {
  import opened Events
  import opened WorkflowGraph
  import opened Aggregate

  type Registry = map<string, WorkflowDef>

  // ---------------------------------------------------------------------
  // Loading
  // ---------------------------------------------------------------------

  function Lookup(registry: Registry, w: string): Option<WorkflowDef> {
    if w != "" && w in registry then Some(registry[w]) else None
  }

  /** The definition attached before the replay: the one the first
      WorkflowRequested names. */
  function PreAttached(registry: Registry, log: seq<Envelope>): Option<WorkflowDef> {
    if log == [] then None
    else if log[0].event.WorkflowRequested? then Lookup(registry, log[0].event.workflowID)
    else PreAttached(registry, log[1..])
  }

  function Attach(s: AggState, def: Option<WorkflowDef>): AggState {
    if def.Some? then s.(def := def, maxIterations := def.value.maxIterations) else s
  }

  function Replayed(registry: Registry, id: string, log: seq<Envelope>): AggState {
    ApplyAll(Attach(NewAggregate(id), PreAttached(registry, log)), log)
  }

  /** loadAggregate: attach, replay, attach again. */
  function Load(registry: Registry, id: string, log: seq<Envelope>): AggState {
    var s := Replayed(registry, id, log);
    Attach(s, Lookup(registry, s.workflowID))
  }

  lemma {:induction false} ApplyAllFrame(s: AggState, log: seq<Envelope>)
    ensures ApplyAll(s, log).id == s.id && ApplyAll(s, log).def == s.def
    ensures ApplyAll(s, log).maxIterations == s.maxIterations
    ensures ApplyAll(s, log).version == if log == [] then s.version else log[|log| - 1].version
  {
    if log != [] {
      ApplyAllFrame(s, log[..|log| - 1]);
    }
  }

  // ---------------------------------------------------------------------
  // Completions
  // ---------------------------------------------------------------------

  predicate Reports(e: Event, p: Persona) {
    e == PersonaCompleted(p) || e == PersonaTracked(p)
  }

  /** The events that mark p complete. */
  predicate Completes(def: Option<WorkflowDef>, e: Event, p: Persona) {
    Reports(e, p) || (e.PersonaFailedTracked? && e.trackedFailure.persona == p && AbsorbsFailure(def, p))
  }

  /** The events that take p's completion back. */
  predicate Invalidates(e: Event, p: Persona) {
    match e
    case FeedbackGenerated(fb) => fb.target == p || (fb.source == p && p != "")
    case WorkflowRetried(_, gone, _) => p in gone
    case _ => false
  }

  ghost predicate DoneAt(def: Option<WorkflowDef>, log: seq<Envelope>, p: Persona, i: int) {
    && 0 <= i < |log| && Completes(def, log[i].event, p)
    && forall j :: i < j < |log| ==> !Invalidates(log[j].event, p)
  }

  /** p completed, and nothing invalidated it since. */
  ghost predicate Done(def: Option<WorkflowDef>, log: seq<Envelope>, p: Persona) {
    exists i :: DoneAt(def, log, p, i)
  }

  lemma CompletedStep(s: AggState, env: Envelope, p: Persona)
    ensures p in ApplyEvent(s, env).completed <==>
      Completes(s.def, env.event, p) || (p in s.completed && !Invalidates(env.event, p))
  {
    hide IsCategoryReviewer;
  }

  /** The replayed completion set is exactly the set of personas that are done
      according to the log. */
  lemma {:induction false} CompletedIffDone(s: AggState, log: seq<Envelope>, p: Persona)
    requires s.completed == {}
    ensures p in ApplyAll(s, log).completed <==> Done(s.def, log, p)
  {
    hide Completes, Invalidates, ApplyEvent;
    if log != [] {
      var n := |log| - 1;
      var init := log[..n];
      CompletedIffDone(s, init, p);
      ApplyAllFrame(s, init);
      CompletedStep(ApplyAll(s, init), log[n], p);
      if Completes(s.def, log[n].event, p) {
        assert DoneAt(s.def, log, p, n);
      } else if Done(s.def, init, p) && !Invalidates(log[n].event, p) {
        var i :| DoneAt(s.def, init, p, i);
        assert DoneAt(s.def, log, p, i);
      }
      if Done(s.def, log, p) && !Completes(s.def, log[n].event, p) {
        var i :| DoneAt(s.def, log, p, i);
        assert DoneAt(s.def, init, p, i);
      }
    }
  }

  // ---------------------------------------------------------------------
  // Status
  // ---------------------------------------------------------------------

  /** The events after which a workflow has the status. */
  predicate Puts(e: Event, st: Status) {
    match st
    case Requested => e.WorkflowRequested?
    case Running => e.WorkflowStarted? || e.WorkflowResumed? || e.WorkflowRetried?
    case Paused => e.WorkflowPaused?
    case Completed => e.WorkflowCompleted?
    case Failed => e.WorkflowFailed?
    case WasCancelled => e.WorkflowCancelled?
  }

  /** The lifecycle events. All others leave the status alone. */
  predicate IsLifecycle(e: Event) {
    || e.WorkflowRequested? || e.WorkflowStarted? || e.WorkflowResumed? || e.WorkflowRetried?
    || e.WorkflowPaused? || e.WorkflowCompleted? || e.WorkflowFailed? || e.WorkflowCancelled?
  }

  ghost predicate LastStatusAt(log: seq<Envelope>, st: Status, i: int) {
    && 0 <= i < |log| && Puts(log[i].event, st)
    && forall j :: i < j < |log| ==> !IsLifecycle(log[j].event)
  }

  /** The last lifecycle event of the log puts the workflow in this status. */
  ghost predicate LastStatus(log: seq<Envelope>, st: Status) {
    exists i :: LastStatusAt(log, st, i)
  }

  predicate NoLifecycle(log: seq<Envelope>) {
    forall i :: 0 <= i < |log| ==> !IsLifecycle(log[i].event)
  }

  lemma StatusStep(s: AggState, env: Envelope, st: Status)
    ensures ApplyEvent(s, env).status == st <==>
      if IsLifecycle(env.event) then Puts(env.event, st) else s.status == st
  {
    hide CompletedAfter, SkippedAfter, CountsAfter, GatesAfter, RetriesAfter, FingerprintsAfter, FailingAfter;
  }

  /** A replay leaves each status exactly when the last lifecycle event says
      so; without one the workflow is as good as requested. */
  lemma {:induction false} StatusIffLast(s: AggState, log: seq<Envelope>, st: Status)
    requires s.status == Requested
    ensures ApplyAll(s, log).status == st <==> LastStatus(log, st) || (st == Requested && NoLifecycle(log))
  {
    hide Puts, ApplyEvent, IsLifecycle;
    if log != [] {
      var n := |log| - 1;
      var init := log[..n];
      StatusIffLast(s, init, st);
      StatusStep(ApplyAll(s, init), log[n], st);
      if IsLifecycle(log[n].event) {
        PutsIsLifecycle(log[n].event, st);
        assert LastStatusAt(log, st, n) <==> Puts(log[n].event, st);
        assert forall i :: LastStatusAt(log, st, i) ==> i == n;
      } else {
        PutsIsLifecycle(log[n].event, st);
        if i :| LastStatusAt(init, st, i) {
          assert LastStatusAt(log, st, i);
        }
        if i :| LastStatusAt(log, st, i) {
          assert LastStatusAt(init, st, i);
        }
        assert NoLifecycle(log) <==> NoLifecycle(init);
      }
    }
  }

  lemma PutsIsLifecycle(e: Event, st: Status)
    ensures Puts(e, st) ==> IsLifecycle(e)
  {}

  // ---------------------------------------------------------------------
  // Feedback gates
  // ---------------------------------------------------------------------

  predicate FeedbackFrom(e: Event, source: Persona) {
    e.FeedbackGenerated? && e.feedback.source == source && source != ""
  }

  /** The events that release the gate of `source` on `target`. */
  predicate ReleasesGate(e: Event, source: Persona, target: Persona) {
    || Reports(e, target)
    || (e.WorkflowRetried? && (source in e.invalidated || target in e.invalidated))
  }

  ghost predicate GateAt(log: seq<Envelope>, source: Persona, target: Persona, i: int) {
    && 0 <= i < |log| && FeedbackFrom(log[i].event, source) && log[i].event.feedback.target == target
    && forall j :: i < j < |log| ==>
         !FeedbackFrom(log[j].event, source) && !ReleasesGate(log[j].event, source, target)
  }

  /** The last feedback of `source` named `target`, and nothing released the
      gate since. */
  ghost predicate Gated(log: seq<Envelope>, source: Persona, target: Persona) {
    exists i :: GateAt(log, source, target, i)
  }

  predicate HasGate(pending: map<Persona, Persona>, source: Persona, target: Persona) {
    source in pending && pending[source] == target
  }

  lemma GateStep(s: AggState, env: Envelope, source: Persona, target: Persona)
    ensures HasGate(ApplyEvent(s, env).feedbackPending, source, target) <==>
      if FeedbackFrom(env.event, source) then env.event.feedback.target == target
      else HasGate(s.feedbackPending, source, target) && !ReleasesGate(env.event, source, target)
  {
    hide IsCategoryReviewer;
  }

  /** The replayed gates are exactly those the log leaves standing. */
  lemma {:induction false} PendingIffGated(s: AggState, log: seq<Envelope>, source: Persona, target: Persona)
    requires s.feedbackPending == map[]
    ensures HasGate(ApplyAll(s, log).feedbackPending, source, target) <==> Gated(log, source, target)
  {
    hide ReleasesGate, ApplyEvent;
    if log != [] {
      var n := |log| - 1;
      var init := log[..n];
      PendingIffGated(s, init, source, target);
      GateStep(ApplyAll(s, init), log[n], source, target);
      if FeedbackFrom(log[n].event, source) && log[n].event.feedback.target == target {
        assert GateAt(log, source, target, n);
      } else if Gated(init, source, target) && !FeedbackFrom(log[n].event, source)
                && !ReleasesGate(log[n].event, source, target) {
        var i :| GateAt(init, source, target, i);
        assert GateAt(log, source, target, i);
      }
      if Gated(log, source, target) && !FeedbackFrom(log[n].event, source) {
        var i :| GateAt(log, source, target, i);
        assert GateAt(init, source, target, i);
      }
    }
  }

  // ---------------------------------------------------------------------
  // Counters
  // ---------------------------------------------------------------------

  function FeedbacksTo(log: seq<Envelope>, target: Persona): nat {
    if log == [] then 0
    else FeedbacksTo(log[..|log| - 1], target) +
         if log[|log| - 1].event.FeedbackGenerated? && log[|log| - 1].event.feedback.target == target then 1 else 0
  }

  function AutoRetriesOf(log: seq<Envelope>, p: Persona): nat {
    if log == [] then 0
    else
      var e := log[|log| - 1].event;
      AutoRetriesOf(log[..|log| - 1], p) +
      if e.WorkflowRetried? && e.automatic && e.fromPhase == p && p != "" then 1 else 0
  }

  lemma CounterStep(s: AggState, env: Envelope, p: Persona)
    ensures CountOf(ApplyEvent(s, env).feedbackCount, p) == CountOf(s.feedbackCount, p) +
      if env.event.FeedbackGenerated? && env.event.feedback.target == p then 1 else 0
    ensures CountOf(ApplyEvent(s, env).autoRetries, p) == CountOf(s.autoRetries, p) +
      if env.event.WorkflowRetried? && env.event.automatic && env.event.fromPhase == p && p != "" then 1 else 0
  {
    hide IsCategoryReviewer;
  }

  lemma {:induction false} CountersCount(s: AggState, log: seq<Envelope>, p: Persona)
    requires s.feedbackCount == map[] && s.autoRetries == map[]
    ensures CountOf(ApplyAll(s, log).feedbackCount, p) == FeedbacksTo(log, p)
    ensures CountOf(ApplyAll(s, log).autoRetries, p) == AutoRetriesOf(log, p)
  {
    if log != [] {
      CountersCount(s, log[..|log| - 1], p);
      CounterStep(ApplyAll(s, log[..|log| - 1]), log[|log| - 1], p);
    }
  }

  // ---------------------------------------------------------------------
  // Verdict fingerprints
  // ---------------------------------------------------------------------

  /** The event records a verdict under this source|target key. */
  predicate RecordsVerdict(e: Event, key: string) {
    && e.VerdictTracked?
    && e.trackedVerdict.sourcePersona != "" && e.trackedVerdict.persona != ""
    && VerdictKey(e.trackedVerdict.sourcePersona, e.trackedVerdict.persona) == key
  }

  predicate RecordsFailure(e: Event, key: string, fp: Fingerprint) {
    && RecordsVerdict(e, key)
    && e.trackedVerdict.outcome == VerdictFail && FingerprintOf(e.trackedVerdict) == fp
  }

  ghost predicate LastFailureAt(log: seq<Envelope>, key: string, fp: Fingerprint, i: int) {
    && 0 <= i < |log| && RecordsFailure(log[i].event, key, fp)
    && forall j :: i < j < |log| ==> !RecordsVerdict(log[j].event, key)
  }

  /** The last verdict recorded under the key failed with this fingerprint. */
  ghost predicate LastFailure(log: seq<Envelope>, key: string, fp: Fingerprint) {
    exists i :: LastFailureAt(log, key, fp, i)
  }

  predicate HasFingerprint(s: AggState, key: string, fp: Fingerprint) {
    key in s.lastFingerprint && s.lastFingerprint[key] == fp
  }

  lemma FingerprintStep(s: AggState, env: Envelope, key: string, fp: Fingerprint)
    ensures HasFingerprint(ApplyEvent(s, env), key, fp) <==>
      if RecordsVerdict(env.event, key) then RecordsFailure(env.event, key, fp) else HasFingerprint(s, key, fp)
  {
    hide FingerprintOf, VerdictKey;
  }

  lemma NoFingerprint(s: AggState, key: string, fp: Fingerprint)
    requires s.lastFingerprint == map[]
    ensures !HasFingerprint(s, key, fp)
  {}

  lemma {:induction false} FingerprintIffLastFailure(s: AggState, log: seq<Envelope>, key: string, fp: Fingerprint)
    requires s.lastFingerprint == map[]
    ensures HasFingerprint(ApplyAll(s, log), key, fp) <==> LastFailure(log, key, fp)
  {
    hide RecordsVerdict, HasFingerprint, ApplyEvent;
    if log == [] {
      NoFingerprint(s, key, fp);
    } else {
      var n := |log| - 1;
      var init := log[..n];
      FingerprintIffLastFailure(s, init, key, fp);
      FingerprintStep(ApplyAll(s, init), log[n], key, fp);
      if RecordsFailure(log[n].event, key, fp) {
        assert LastFailureAt(log, key, fp, n);
      } else if LastFailure(init, key, fp) && !RecordsVerdict(log[n].event, key) {
        var i :| LastFailureAt(init, key, fp, i);
        assert LastFailureAt(log, key, fp, i);
      }
      if LastFailure(log, key, fp) && !RecordsVerdict(log[n].event, key) {
        var i :| LastFailureAt(log, key, fp, i);
        assert LastFailureAt(init, key, fp, i);
      }
    }
  }

  // ---------------------------------------------------------------------
  // Load, read off the log
  // ---------------------------------------------------------------------

  /** Everything the decisions read from a loaded aggregate, as facts about
      the log it was loaded from. */
  lemma LoadMeaning(registry: Registry, id: string, log: seq<Envelope>, p: Persona, q: Persona, key: string,
                    fp: Fingerprint)
    ensures var s := Load(registry, id, log);
      && (p in s.completed <==> Done(PreAttached(registry, log), log, p))
      && (s.status == Running <==> LastStatus(log, Running))
      && (HasGate(s.feedbackPending, p, q) <==> Gated(log, p, q))
      && CountOf(s.feedbackCount, p) == FeedbacksTo(log, p)
      && CountOf(s.autoRetries, p) == AutoRetriesOf(log, p)
      && (HasFingerprint(s, key, fp) <==> LastFailure(log, key, fp))
      && s.id == id
      && s.version == if log == [] then 0 else log[|log| - 1].version
  {
    var s0 := Attach(NewAggregate(id), PreAttached(registry, log));
    CompletedIffDone(s0, log, p);
    StatusIffLast(s0, log, Running);
    PendingIffGated(s0, log, p, q);
    CountersCount(s0, log, p);
    FingerprintIffLastFailure(s0, log, key, fp);
    ApplyAllFrame(s0, log);
  }

  /** The status of a loaded aggregate, for every status. */
  lemma LoadStatus(registry: Registry, id: string, log: seq<Envelope>, st: Status)
    ensures Load(registry, id, log).status == st <==> LastStatus(log, st) || (st == Requested && NoLifecycle(log))
  {
    StatusIffLast(Attach(NewAggregate(id), PreAttached(registry, log)), log, st);
  }

  // ---------------------------------------------------------------------
  // The rest of the state
  // ---------------------------------------------------------------------

  ghost predicate FirstRequestAt(log: seq<Envelope>, i: int) {
    && 0 <= i < |log| && log[i].event.WorkflowRequested?
    && forall j :: 0 <= j < i ==> !log[j].event.WorkflowRequested?
  }

  /** The definition attached before the replay is the registered one of the
      workflow that the first request names. */
  lemma {:induction false} PreAttachedIsFirst(registry: Registry, log: seq<Envelope>, i: nat)
    requires FirstRequestAt(log, i)
    ensures var w := log[i].event.workflowID;
      PreAttached(registry, log) == if w != "" && w in registry then Some(registry[w]) else None
  {
    if i > 0 {
      assert !log[0].event.WorkflowRequested?;
      assert forall j :: 0 <= j < |log| - 1 ==> log[1..][j] == log[j + 1];
      PreAttachedIsFirst(registry, log[1..], i - 1);
    }
  }

  /** The tokens reported so far. */
  function TokensIn(log: seq<Envelope>): int {
    if log == [] then 0
    else match log[|log| - 1].event
      case AIResponseReceived(n) => TokensIn(log[..|log| - 1]) + n
      case _ => TokensIn(log[..|log| - 1])
  }

  ghost predicate LastPauseAt(log: seq<Envelope>, i: int) {
    && 0 <= i < |log| && log[i].event.WorkflowPaused?
    && forall j :: i < j < |log| ==> !log[j].event.WorkflowPaused?
  }

  /** What the last pause left for a resume. */
  function PausePayload(log: seq<Envelope>): (Persona, Persona, Persona) {
    if log == [] then ("", "", "")
    else match log[|log| - 1].event
      case WorkflowPaused(retarget, source, retryFrom) => (retarget, source, retryFrom)
      case _ => PausePayload(log[..|log| - 1])
  }

  lemma {:induction false} PausePayloadIsLast(log: seq<Envelope>, i: nat)
    requires LastPauseAt(log, i)
    ensures var e := log[i].event;
      PausePayload(log) == (e.retarget, e.retargetSource, e.retryFromPhase)
  {
    if i < |log| - 1 {
      PausePayloadIsLast(log[..|log| - 1], i);
    }
  }

  /** The workflow that the last request named. */
  function RequestedWorkflow(log: seq<Envelope>): string {
    if log == [] then ""
    else match log[|log| - 1].event
      case WorkflowRequested(w) => w
      case _ => RequestedWorkflow(log[..|log| - 1])
  }

  lemma {:induction false} PayloadsReplayed(s: AggState, log: seq<Envelope>)
    requires s.retarget == s.retargetSource == s.retryFromPhase == "" && s.workflowID == "" && s.tokensUsed == 0
    ensures var s' := ApplyAll(s, log);
      && (s'.retarget, s'.retargetSource, s'.retryFromPhase) == PausePayload(log)
      && s'.workflowID == RequestedWorkflow(log)
      && s'.tokensUsed == TokensIn(log)
  {
    hide CompletedAfter, SkippedAfter, CountsAfter, GatesAfter, RetriesAfter, FingerprintsAfter, FailingAfter;
    if log != [] {
      PayloadsReplayed(s, log[..|log| - 1]);
    }
  }

  /** The event settles which verdict on p is cached. */
  predicate Judges(e: Event, p: Persona) {
    e.VerdictTracked? && e.trackedVerdict.sourcePersona != "" && e.trackedVerdict.persona == p && p != ""
  }

  ghost predicate CachedAt(log: seq<Envelope>, p: Persona, i: int) {
    && 0 <= i < |log| && Judges(log[i].event, p) && log[i].event.trackedVerdict.outcome == VerdictFail
    && forall j :: i < j < |log| ==> !Judges(log[j].event, p)
  }

  ghost predicate CachesFrom(log: seq<Envelope>, p: Persona, c: CachedVerdict, i: int) {
    CachedAt(log, p, i)
    && c == CachedVerdict(log[i].event.trackedVerdict.sourcePersona, log[i].event.trackedVerdict.rawDiagnostics)
  }

  /** The cached verdict on p is the last one recorded, if that failed. */
  lemma {:induction false} CachedIffLastFails(s: AggState, log: seq<Envelope>, p: Persona, c: CachedVerdict)
    requires s.lastFailing == map[]
    ensures var m := ApplyAll(s, log).lastFailing;
      p in m && m[p] == c <==> exists i :: CachesFrom(log, p, c, i)
  {
    hide CompletedAfter, SkippedAfter, CountsAfter, GatesAfter, RetriesAfter, FingerprintsAfter;
    if log != [] {
      var n := |log| - 1;
      var init := log[..n];
      CachedIffLastFails(s, init, p, c);
      if Judges(log[n].event, p) {
        assert CachesFrom(log, p, c, n) <==> p in ApplyAll(s, log).lastFailing && ApplyAll(s, log).lastFailing[p] == c;
        assert forall i :: CachesFrom(log, p, c, i) ==> i == n;
      } else {
        if i :| CachesFrom(init, p, c, i) {
          assert CachesFrom(log, p, c, i);
        }
        if i :| CachesFrom(log, p, c, i) {
          assert CachesFrom(init, p, c, i);
        }
      }
    }
  }

  predicate FailedAt(log: seq<Envelope>, p: Persona, i: int) {
    0 <= i < |log| && log[i].event.PersonaFailedTracked? && log[i].event.trackedFailure.persona == p
  }

  /** The replayed skips are the reviewers whose failure was absorbed. */
  lemma {:induction false} SkippedIffAbsorbed(s: AggState, log: seq<Envelope>, p: Persona)
    requires s.skipped == {}
    ensures p in ApplyAll(s, log).skipped <==>
      AbsorbsFailure(s.def, p) && exists i :: FailedAt(log, p, i)
  {
    hide IsCategoryReviewer, CompletedAfter, CountsAfter, GatesAfter, RetriesAfter, FingerprintsAfter, FailingAfter;
    if log != [] {
      var n := |log| - 1;
      SkippedIffAbsorbed(s, log[..n], p);
      ApplyAllFrame(s, log[..n]);
      if i :| FailedAt(log[..n], p, i) {
        assert FailedAt(log, p, i);
      }
      if i :| FailedAt(log, p, i) {
        assert i == n || FailedAt(log[..n], p, i);
      }
      assert FailedAt(log, p, n) <==>
          log[n].event.PersonaFailedTracked? && log[n].event.trackedFailure.persona == p;
    }
  }

  /** The other half of what the decisions read: the definition and its limit,
      what a pause left for the resume, the cached verdicts and the skips. */
  lemma LoadRest(registry: Registry, id: string, log: seq<Envelope>, p: Persona, c: CachedVerdict)
    ensures var s := Load(registry, id, log);
      var requested := Lookup(registry, RequestedWorkflow(log));
      && s.def == (if requested.Some? then requested else PreAttached(registry, log))
      && s.maxIterations == (if s.def.Some? then s.def.value.maxIterations else 3)
      && s.workflowID == RequestedWorkflow(log)
      && s.tokensUsed == TokensIn(log)
      && (s.retarget, s.retargetSource, s.retryFromPhase) == PausePayload(log)
      && (p in s.lastFailing && s.lastFailing[p] == c <==> exists i :: CachesFrom(log, p, c, i))
      && (p in s.skipped <==>
            AbsorbsFailure(PreAttached(registry, log), p) && exists i :: FailedAt(log, p, i))
  {
    hide CachesFrom, AbsorbsFailure, PausePayload, RequestedWorkflow, PreAttached, ApplyAll, Lookup, FailedAt, TokensIn;
    var s0 := Attach(NewAggregate(id), PreAttached(registry, log));
    var s := ApplyAll(s0, log);
    ApplyAllFrame(s0, log);
    PayloadsReplayed(s0, log);
    CachedIffLastFails(s0, log, p, c);
    SkippedIffAbsorbed(s0, log, p);
    AttachKeeps(s, Lookup(registry, s.workflowID));
    hide Attach;
  }

  lemma AttachKeeps(s: AggState, def: Option<WorkflowDef>)
    ensures var s' := Attach(s, def);
      && s'.workflowID == s.workflowID && s'.tokensUsed == s.tokensUsed
      && s'.lastFailing == s.lastFailing && s'.skipped == s.skipped
      && s'.retarget == s.retarget && s'.retargetSource == s.retargetSource && s'.retryFromPhase == s.retryFromPhase
      && s'.def == (if def.Some? then def else s.def)
      && s'.maxIterations == if def.Some? then def.value.maxIterations else s.maxIterations
  {}
}
