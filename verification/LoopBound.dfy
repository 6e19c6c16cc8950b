/** The feedback and retry loops are bounded over whole runs. */
module LoopBound {
  import opened Events
  import opened Finite
  import opened WorkflowGraph
  import opened Aggregate
  import opened Replay
  import opened EngineStep

  predicate IsLoopEvent(e: Event) {
    e.FeedbackGenerated? || e.WorkflowRetried?
  }

  function LoopEvents(out: seq<Envelope>): nat {
    if out == [] then 0
    else LoopEvents(out[..|out| - 1]) + if IsLoopEvent(out[|out| - 1].event) then 1 else 0
  }

  /** The loop events the engine itself emits over a run. */
  ghost function Emitted(registry: Registry, id: string, steps: seq<Step>): nat {
    if steps == [] then 0
    else
      var init := steps[..|steps| - 1];
      Emitted(registry, id, init)
      + LoopEvents(StepPublished(registry, id, Run(registry, id, [], init), steps[|steps| - 1]))
  }

  predicate IsResume(step: Step) {
    step.Process? && step.env.event.WorkflowResumed?
  }

  /** The WorkflowResumed events the engine processes over a run. */
  function Resumes(steps: seq<Step>): nat {
    if steps == [] then 0
    else Resumes(steps[..|steps| - 1]) + if IsResume(steps[|steps| - 1]) then 1 else 0
  }

  /** Whatever workflow the log asks for, it resolves to d or to nothing. */
  predicate FixedDefinition(registry: Registry, log: seq<Envelope>, d: WorkflowDef) {
    forall i :: 0 <= i < |log| && log[i].event.WorkflowRequested? ==>
      Lookup(registry, log[i].event.workflowID) in {None, Some(d)}
  }

  function Cap(n: int): nat {
    if n < 0 then 0 else n
  }

  function Min(a: nat, b: nat): nat {
    if a < b then a else b
  }

  /** Feedback rounds already spent, capped per required persona. */
  function Spent(required: seq<Persona>, max: nat, log: seq<Envelope>): nat {
    if required == [] then 0
    else Spent(required[1..], max, log) + Min(FeedbacksTo(log, required[0]), max)
  }

  function Retried(d: WorkflowDef, log: seq<Envelope>): set<Persona> {
    set p | p in d.graph && AutoRetriesOf(log, p) >= 1
  }

  /** What the run has used up so far. */
  function Potential(d: WorkflowDef, log: seq<Envelope>): nat {
    Spent(d.required, Cap(d.maxIterations), log) + |Retried(d, log)|
  }

  function Budget(d: WorkflowDef): nat {
    |d.required| * Cap(d.maxIterations) + |d.graph|
  }

  lemma {:induction false} SpentBounded(required: seq<Persona>, max: nat, log: seq<Envelope>)
    ensures Spent(required, max, log) <= |required| * max
  {
    hide FeedbacksTo;
    if required != [] {
      SpentBounded(required[1..], max, log);
      assert |required| * max == |required[1..]| * max + max;
    }
  }

  lemma PotentialBounded(d: WorkflowDef, log: seq<Envelope>)
    ensures Potential(d, log) <= Budget(d)
  {
    SpentBounded(d.required, Cap(d.maxIterations), log);
    SubsetSize(Retried(d, log), d.graph.Keys);
  }

  lemma {:induction false} CountersGrow(log: seq<Envelope>, more: seq<Envelope>, p: Persona)
    ensures FeedbacksTo(log + more, p) >= FeedbacksTo(log, p)
    ensures AutoRetriesOf(log + more, p) >= AutoRetriesOf(log, p)
    ensures (exists i :: 0 <= i < |more| && more[i].event.FeedbackGenerated? && more[i].event.feedback.target == p)
            ==> FeedbacksTo(log + more, p) > FeedbacksTo(log, p)
    ensures p != "" && (exists i :: 0 <= i < |more| && more[i].event.WorkflowRetried? && more[i].event.automatic
                                    && more[i].event.fromPhase == p)
            ==> AutoRetriesOf(log + more, p) > AutoRetriesOf(log, p)
  {
    if more == [] {
      assert log + more == log;
    } else {
      var init := more[..|more| - 1];
      assert (log + more)[..|log + more| - 1] == log + init;
      CountersGrow(log, init, p);
    }
  }

  lemma {:induction false} SpentGrows(required: seq<Persona>, max: nat, log: seq<Envelope>, log': seq<Envelope>)
    requires forall p :: FeedbacksTo(log, p) <= FeedbacksTo(log', p)
    ensures Spent(required, max, log) <= Spent(required, max, log')
    ensures (exists p :: p in required && FeedbacksTo(log, p) < max && FeedbacksTo(log, p) < FeedbacksTo(log', p))
            ==> Spent(required, max, log) < Spent(required, max, log')
  {
    if required != [] {
      SpentGrows(required[1..], max, log, log');
    }
  }

  lemma RetriedGrows(d: WorkflowDef, log: seq<Envelope>, log': seq<Envelope>)
    requires forall p :: AutoRetriesOf(log, p) <= AutoRetriesOf(log', p)
    ensures |Retried(d, log)| <= |Retried(d, log')|
    ensures (exists p :: p in d.graph && AutoRetriesOf(log, p) == 0 < AutoRetriesOf(log', p))
            ==> |Retried(d, log)| < |Retried(d, log')|
  {
    SubsetSize(Retried(d, log), Retried(d, log'));
    if p :| p in d.graph && AutoRetriesOf(log, p) == 0 < AutoRetriesOf(log', p) {
      assert p in Retried(d, log') && p !in Retried(d, log);
      CardinalityDrops(Retried(d, log), Retried(d, log'));
    }
  }

  /** The event spends a round of feedback or an automatic retry that the log
      still had. */
  predicate Spends(d: WorkflowDef, log: seq<Envelope>, e: Event) {
    || (e.FeedbackGenerated? && e.feedback.target in d.required
        && FeedbacksTo(log, e.feedback.target) < Cap(d.maxIterations))
    || (e.WorkflowRetried? && e.automatic && e.fromPhase != "" && e.fromPhase in d.graph
        && AutoRetriesOf(log, e.fromPhase) == 0)
  }

  lemma PotentialGrows(d: WorkflowDef, log: seq<Envelope>, more: seq<Envelope>)
    ensures Potential(d, log) <= Potential(d, log + more)
    ensures (exists i :: 0 <= i < |more| && Spends(d, log, more[i].event))
            ==> Potential(d, log) < Potential(d, log + more)
  {
    hide FeedbacksTo, AutoRetriesOf, Spent, Retried;
    forall p ensures
      FeedbacksTo(log, p) <= FeedbacksTo(log + more, p) && AutoRetriesOf(log, p) <= AutoRetriesOf(log + more, p)
    {
      CountersGrow(log, more, p);
    }
    SpentGrows(d.required, Cap(d.maxIterations), log, log + more);
    RetriedGrows(d, log, log + more);
    if i :| 0 <= i < |more| && Spends(d, log, more[i].event) {
      var e := more[i].event;
      CountersGrow(log, more, if e.FeedbackGenerated? then e.feedback.target else e.fromPhase);
    }
  }

  // ---------------------------------------------------------------------
  // What a load sees under a fixed definition
  // ---------------------------------------------------------------------

  lemma {:induction false} WorkflowIDFromLog(s: AggState, log: seq<Envelope>)
    ensures ApplyAll(s, log).workflowID == s.workflowID
            || exists i :: 0 <= i < |log| && log[i].event.WorkflowRequested?
                           && log[i].event.workflowID == ApplyAll(s, log).workflowID
  {
    hide IsCategoryReviewer, CompletedAfter, GatesAfter, FingerprintsAfter, FailingAfter;
    if log != [] {
      WorkflowIDFromLog(s, log[..|log| - 1]);
    }
  }

  lemma {:induction false} PreAttachedFixed(registry: Registry, log: seq<Envelope>, d: WorkflowDef)
    requires FixedDefinition(registry, log, d)
    ensures PreAttached(registry, log) in {None, Some(d)}
  {
    if log != [] && !log[0].event.WorkflowRequested? {
      PreAttachedFixed(registry, log[1..], d);
    }
  }

  lemma LoadFixed(registry: Registry, id: string, log: seq<Envelope>, d: WorkflowDef)
    requires FixedDefinition(registry, log, d)
    ensures var s := Load(registry, id, log);
      s.def == None || (s.def == Some(d) && s.maxIterations == d.maxIterations)
  {
    PreAttachedFixed(registry, log, d);
    var s0 := Attach(NewAggregate(id), PreAttached(registry, log));
    ApplyAllFrame(s0, log);
    WorkflowIDFromLog(s0, log);
  }

  /** No handler of the definition is at once required, in the graph, and
      nameless: the counter of automatic retries skips the empty name. */
  predicate NamesRetriable(d: WorkflowDef) {
    !("" in d.required && "" in d.graph)
  }

  /** Any loop event a decision emits, other than on a resume, spends budget. */
  lemma DecisionSpends(s: AggState, env: Envelope, c: Choice, d: WorkflowDef, log: seq<Envelope>, e: Envelope)
    requires s.def == None || (s.def == Some(d) && s.maxIterations == d.maxIterations)
    requires NamesRetriable(d)
    requires forall p :: CountOf(s.feedbackCount, p) == FeedbacksTo(log, p)
    requires forall p :: CountOf(s.autoRetries, p) == AutoRetriesOf(log, p)
    requires e in Decide(s, env, c) && IsLoopEvent(e.event) && !env.event.WorkflowResumed?
    ensures Spends(d, log, e.event)
  {
    hide IsCategoryReviewer, Invalidated, FingerprintOf, VerdictKey, FeedbacksTo, AutoRetriesOf;
  }

  lemma TrackingKeepsCounters(s: AggState, env: Envelope)
    ensures var s1 := ApplyAll(s, TrackingEvents(s, env));
      s1.def == s.def && s1.maxIterations == s.maxIterations
      && s1.feedbackCount == s.feedbackCount && s1.autoRetries == s.autoRetries
  {
    hide IsStale, IsRequired, CompletedAfter, GatesAfter, FingerprintsAfter, FailingAfter;
    TrackedState(s, env);
  }

  lemma StepSpends(registry: Registry, id: string, log: seq<Envelope>, step: Step, d: WorkflowDef)
    requires FixedDefinition(registry, log, d) && NamesRetriable(d)
    ensures Potential(d, log) + LoopEvents(StepPublished(registry, id, log, step))
            <= Potential(d, Next(registry, id, log, step)) + if IsResume(step) then 1 else 0
  {
    hide Load, Decide, Potential, Tracking, NamesRetriable, FixedDefinition;
    var stored := Stamp(id, |log|, StepStored(registry, id, log, step));
    PotentialGrows(d, log, stored);
    if step.Process? {
      var s := Load(registry, id, log);
      LoadFixed(registry, id, log, d);
      TrackingKeepsCounters(s, step.env);
      var t := TrackingEvents(s, step.env);
      var s1 := ApplyAll(s, t);
      DecideShape(s1, step.env, step.choice);
      var decided := Decide(s1, step.env, step.choice);
      if decided != [] && IsLoopEvent(decided[0].event) && !IsResume(step) {
        forall p ensures
          CountOf(s1.feedbackCount, p) == FeedbacksTo(log, p) && CountOf(s1.autoRetries, p) == AutoRetriesOf(log, p)
        {
          LoadMeaning(registry, id, log, p, "", "", Fingerprint("", multiset{}));
        }
        DecisionSpends(s1, step.env, step.choice, d, log, decided[0]);
        assert stored[|t|].event == decided[0].event;
      }
    }
  }

  lemma {:induction false} RunSpends(registry: Registry, id: string, steps: seq<Step>, d: WorkflowDef)
    requires FixedDefinition(registry, Run(registry, id, [], steps), d) && NamesRetriable(d)
    ensures Emitted(registry, id, steps) <= Potential(d, Run(registry, id, [], steps)) + Resumes(steps)
  {
    hide Potential, StepStored, StepPublished, NamesRetriable, Lookup;
    if steps != [] {
      var init := steps[..|steps| - 1];
      var before := Run(registry, id, [], init);
      assert forall i :: 0 <= i < |before| ==> Run(registry, id, [], steps)[i] == before[i];
      RunSpends(registry, id, init, d);
      StepSpends(registry, id, before, steps[|steps| - 1], d);
    }
  }

  /** Over every run, against arbitrary inputs and external appends, the loop
      events the engine emits number at most |required| * maxIterations, plus
      one automatic retry per handler, plus one per resume. */
  lemma LoopsAreBounded(registry: Registry, id: string, steps: seq<Step>, d: WorkflowDef)
    requires FixedDefinition(registry, Run(registry, id, [], steps), d) && NamesRetriable(d)
    ensures Emitted(registry, id, steps) <= Budget(d) + Resumes(steps)
  {
    RunSpends(registry, id, steps, d);
    PotentialBounded(d, Run(registry, id, [], steps));
  }

  // ---------------------------------------------------------------------
  // The bound is exact about nameless handlers
  // ---------------------------------------------------------------------

  /** The failure of the nameless persona, reported on its own aggregate and
      correlated with the workflow. */
  function NamelessFailure(id: string): Step {
    var scope := if id == "" then "" else id + ":persona:";
    Process(Envelope(scope, 1, id, PersonaFailed(Failure("", IdleTimeout, ""))), Choice(true, ""))
  }

  function NamelessRun(id: string, w: string, n: nat): seq<Step> {
    if n == 0 then [Append([Envelope(id, 0, id, WorkflowRequested(w)), Envelope(id, 0, id, WorkflowStarted(w))])]
    else NamelessRun(id, w, n - 1) + [NamelessFailure(id)]
  }

  /** A log that requested w once, first, and last set the status to running. */
  predicate Started(log: seq<Envelope>, w: string) {
    && |log| >= 2 && log[0].event == WorkflowRequested(w)
    && (forall i :: 0 < i < |log| ==> !log[i].event.WorkflowRequested?)
    && Puts(log[|log| - 1].event, Running)
  }

  lemma StartedLoads(registry: Registry, id: string, log: seq<Envelope>, w: string, d: WorkflowDef)
    requires w != "" && w in registry && registry[w] == d && Started(log, w)
    ensures FixedDefinition(registry, log, d)
    ensures Load(registry, id, log).def == Some(d) && Load(registry, id, log).status == Running
    ensures CountOf(Load(registry, id, log).autoRetries, "") == 0
    ensures Load(registry, id, log).id == id
  {
    hide ApplyEvent, IsCategoryReviewer;
    LoadMeaning(registry, id, log, "", "", "", Fingerprint("", multiset{}));
    NamelessNeverCounted(log);
    assert LastStatusAt(log, Running, |log| - 1);
    var s0 := Attach(NewAggregate(id), PreAttached(registry, log));
    ApplyAllFrame(s0, log);
    WorkflowIDFromLog(s0, log);
  }

  lemma {:induction false} NamelessNeverCounted(log: seq<Envelope>)
    ensures AutoRetriesOf(log, "") == 0
  {
    if log != [] {
      NamelessNeverCounted(log[..|log| - 1]);
    }
  }

  lemma NamelessStep(registry: Registry, id: string, log: seq<Envelope>, w: string, d: WorkflowDef)
    requires w != "" && w in registry && registry[w] == d && Started(log, w)
    requires !NamesRetriable(d)
    ensures Started(Next(registry, id, log, NamelessFailure(id)), w)
    ensures LoopEvents(StepPublished(registry, id, log, NamelessFailure(id))) == 1
  {
    hide Load, Invalidated, IsCategoryReviewer;
    StartedLoads(registry, id, log, w, d);
    var s := Load(registry, id, log);
    var env := NamelessFailure(id).env;
    TrackedState(s, env);
    var s1 := ApplyAll(s, TrackingEvents(s, env));
    assert s1.status == Running && s1.def == s.def && s1.autoRetries == s.autoRetries;
    var out := StepPublished(registry, id, log, NamelessFailure(id));
    assert |out| == 1 && out[0].event.WorkflowRetried?;
    assert LoopEvents(out[..0]) == 0;
    assert StepStored(registry, id, log, NamelessFailure(id)) == TrackingEvents(s, env) + out;
  }

  lemma RunExtends(registry: Registry, id: string, init: seq<Step>, last: Step)
    ensures var before := Run(registry, id, [], init);
      && Run(registry, id, [], init + [last]) == Next(registry, id, before, last)
      && Emitted(registry, id, init + [last])
         == Emitted(registry, id, init) + LoopEvents(StepPublished(registry, id, before, last))
      && Resumes(init + [last]) == Resumes(init) + if IsResume(last) then 1 else 0
  {
    hide Next, StepPublished, LoopEvents;
    assert (init + [last])[..|init|] == init;
  }

  lemma {:induction false} NamelessRunEmits(registry: Registry, id: string, w: string, d: WorkflowDef, n: nat)
    requires w != "" && w in registry && registry[w] == d
    requires !NamesRetriable(d)
    ensures forall k :: 0 <= k < |NamelessRun(id, w, n)| ==> Routed(id, NamelessRun(id, w, n)[k])
    ensures Started(Run(registry, id, [], NamelessRun(id, w, n)), w)
    ensures Emitted(registry, id, NamelessRun(id, w, n)) == n && Resumes(NamelessRun(id, w, n)) == 0
  {
    hide Run, Emitted, Started, Next, StepPublished, Resumes, NamesRetriable;
    if n == 0 {
      var first := NamelessRun(id, w, 0)[0];
      RunExtends(registry, id, [], first);
      assert [] + [first] == NamelessRun(id, w, 0);
      NamelessStarts(registry, id, w, first);
    } else {
      NamelessRunEmits(registry, id, w, d, n - 1);
      var init := NamelessRun(id, w, n - 1);
      RunExtends(registry, id, init, NamelessFailure(id));
      NamelessStep(registry, id, Run(registry, id, [], init), w, d);
    }
  }

  lemma NamelessStarts(registry: Registry, id: string, w: string, first: Step)
    requires [first] == NamelessRun(id, w, 0)
    ensures Started(Next(registry, id, Run(registry, id, [], []), first), w)
    ensures Emitted(registry, id, []) == 0 && Resumes([]) == 0
    ensures LoopEvents(StepPublished(registry, id, Run(registry, id, [], []), first)) == 0
  {
    StartedStamp(id, w);
    assert Next(registry, id, [], first) == Stamp(id, 0, first.events);
  }

  lemma StartedStamp(id: string, w: string)
    ensures var first := [Envelope(id, 0, id, WorkflowRequested(w)), Envelope(id, 0, id, WorkflowStarted(w))];
      Started(Stamp(id, 0, first), w)
  {}

  /** The loop bound holds for every run of a registered definition, over
      events that the engine routes to the workflow, exactly when no required
      handler of its graph is nameless. */
  lemma LoopsAreBoundedIff(registry: Registry, id: string, w: string, d: WorkflowDef)
    requires w != "" && w in registry && registry[w] == d
    ensures NamesRetriable(d) <==>
      forall steps :: (forall k :: 0 <= k < |steps| ==> Routed(id, steps[k]))
                      && FixedDefinition(registry, Run(registry, id, [], steps), d)
                      ==> Emitted(registry, id, steps) <= Budget(d) + Resumes(steps)
  {
    hide NamesRetriable, FixedDefinition, Run, Emitted, Budget;
    if NamesRetriable(d) {
      forall steps | FixedDefinition(registry, Run(registry, id, [], steps), d)
        ensures Emitted(registry, id, steps) <= Budget(d) + Resumes(steps)
      {
        LoopsAreBounded(registry, id, steps, d);
      }
    } else {
      var steps := NamelessRun(id, w, Budget(d) + 1);
      NamelessRunEmits(registry, id, w, d, Budget(d) + 1);
      StartedLoads(registry, id, Run(registry, id, [], steps), w, d);
      assert FixedDefinition(registry, Run(registry, id, [], steps), d);
      assert Emitted(registry, id, steps) > Budget(d) + Resumes(steps);
    }
  }
}
