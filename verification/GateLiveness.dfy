/** Exactly which feedback gates wedge a workflow: persona completions can
    still complete it if and only if no required persona sits in a set of
    gates that wait only for one another. */
module GateLiveness {
  import opened Events
  import opened Finite
  import opened WorkflowGraph
  import opened Aggregate
  import opened Replay
  import opened EngineStep
  import opened EngineSafety

  /** Inside c, p is incomplete and gated on a member of c. */
  ghost predicate HeldInside(s: AggState, c: set<Persona>, p: Persona) {
    p in c ==> p !in s.completed && p in s.feedbackPending && s.feedbackPending[p] in c
  }

  /** Every member is incomplete and gated on a member. A persona whose
      feedback names itself is such a set of one. */
  ghost predicate WedgedSet(s: AggState, c: set<Persona>) {
    forall p :: HeldInside(s, c, p)
  }

  ghost predicate Wedged(d: WorkflowDef, s: AggState) {
    exists c: set<Persona> :: WedgedSet(s, c) && HoldsRequired(d, c)
  }

  predicate HoldsRequired(d: WorkflowDef, c: set<Persona>) {
    exists p :: p in c && p in d.required
  }

  /** The step delivers a persona-scoped completion to this workflow. */
  predicate Delivers(id: string, step: Step) {
    && step.Process? && step.env.event.PersonaCompleted? && step.env.aggregateID != id
    && Routed(id, step)
  }

  ghost predicate Deliveries(id: string, steps: seq<Step>) {
    forall i :: 0 <= i < |steps| ==> Delivers(id, steps[i])
  }

  /** Some step of the run publishes WorkflowCompleted. */
  ghost predicate Finishes(registry: Registry, id: string, log: seq<Envelope>, steps: seq<Step>) {
    exists k: nat :: k < |steps| && Completing(registry, id, Run(registry, id, log, steps[..k]), steps[k])
  }

  function Delivery(id: string, p: Persona): Step {
    Process(Envelope(id + ":persona:" + p, 0, id, PersonaCompleted(p)), Choice(false, ""))
  }

  lemma LoadedID(registry: Registry, id: string, log: seq<Envelope>)
    ensures Load(registry, id, log).id == id
  {
    ApplyAllFrame(Attach(NewAggregate(id), PreAttached(registry, log)), log);
  }

  /** What the engine credits for a delivered completion of q. */
  lemma DeliveredState(s: AggState, env: Envelope)
    requires env.event.PersonaCompleted? && env.aggregateID != s.id
    ensures var q := env.event.completedBy;
      var s1 := ApplyAll(s, TrackingEvents(s, env));
      && s1.status == s.status && s1.def == s.def
      && if q in s.completed || IsStale(s, q)
         then s1.completed == s.completed && s1.feedbackPending == s.feedbackPending
         else s1.completed == s.completed + {q} && s1.feedbackPending == OpenGates(s.feedbackPending, q)
  {
    hide IsCategoryReviewer;
    TrackedState(s, env);
  }

  /** A delivery completes the workflow, or leaves the credited state. */
  lemma Delivered(registry: Registry, id: string, log: seq<Envelope>, step: Step)
    requires Delivers(id, step)
    ensures var s := Load(registry, id, log);
      var s1 := ApplyAll(s, TrackingEvents(s, step.env));
      var s' := Load(registry, id, Next(registry, id, log, step));
      && (Completing(registry, id, log, step) <==> s1.status == Running && AllRequiredDone(s1))
      && (!Completing(registry, id, log, step) ==> s' == s1.(version := s'.version))
  {
    hide Load, Tracking, ApplyEvent, AllRequiredDone;
    var s := Load(registry, id, log);
    var env := step.env;
    LoadedID(registry, id, log);
    var s1 := ApplyAll(s, TrackingEvents(s, env));
    var decided := MaybeCompleted(s1, env);
    assert StepPublished(registry, id, log, step) == decided;
    if decided != [] {
      assert decided[0].event.WorkflowCompleted?;
    } else {
      assert Next(registry, id, log, step) == log + Stamp(id, |log|, TrackingEvents(s, env));
      StampedTrackingLoads(registry, id, log, env);
    }
  }

  // ---------------------------------------------------------------------
  // A wedged set stays wedged
  // ---------------------------------------------------------------------

  lemma CreditKeepsWedged(d: WorkflowDef, s: AggState, c: set<Persona>, env: Envelope)
    requires env.event.PersonaCompleted? && env.aggregateID != s.id
    requires s.def == Some(d) && WedgedSet(s, c) && HoldsRequired(d, c)
    ensures var s1 := ApplyAll(s, TrackingEvents(s, env));
      s1.def == Some(d) && WedgedSet(s1, c) && !AllRequiredDone(s1)
  {
    hide TrackingEvents, ApplyAll;
    DeliveredState(s, env);
    var p :| p in c && p in d.required;
    var e := env.event.completedBy;
    if e in c {
      assert HeldInside(s, c, e) && HeldInside(s, c, s.feedbackPending[e]);
    }
    var s1 := ApplyAll(s, TrackingEvents(s, env));
    forall q ensures HeldInside(s1, c, q) {
      assert HeldInside(s, c, q);
    }
    assert HeldInside(s1, c, p);
  }

  lemma WedgedStep(registry: Registry, id: string, log: seq<Envelope>, d: WorkflowDef, c: set<Persona>, step: Step)
    requires Load(registry, id, log).def == Some(d)
    requires WedgedSet(Load(registry, id, log), c) && HoldsRequired(d, c)
    requires Delivers(id, step)
    ensures !Completing(registry, id, log, step)
    ensures var s' := Load(registry, id, Next(registry, id, log, step));
      s'.def == Some(d) && WedgedSet(s', c)
  {
    hide Load, Next, Completing, TrackingEvents, ApplyAll, AllRequiredDone;
    LoadedID(registry, id, log);
    var s := Load(registry, id, log);
    CreditKeepsWedged(d, s, c, step.env);
    Delivered(registry, id, log, step);
    SameVersionless(d, ApplyAll(s, TrackingEvents(s, step.env)), Load(registry, id, Next(registry, id, log, step)));
  }

  lemma {:induction false} WedgedForever(registry: Registry, id: string, log: seq<Envelope>, d: WorkflowDef,
                                         c: set<Persona>, steps: seq<Step>)
    requires Load(registry, id, log).def == Some(d)
    requires WedgedSet(Load(registry, id, log), c) && HoldsRequired(d, c)
    requires Deliveries(id, steps)
    ensures var s := Load(registry, id, Run(registry, id, log, steps));
      s.def == Some(d) && WedgedSet(s, c)
    ensures !Finishes(registry, id, log, steps)
  {
    hide Load, Next, Completing, WedgedSet, Delivers;
    if steps == [] {
    } else {
      var n := |steps| - 1;
      var init := steps[..n];
      WedgedForever(registry, id, log, d, c, init);
      WedgedStep(registry, id, Run(registry, id, log, init), d, c, steps[n]);
      forall k: nat | k < |steps| ensures !Completing(registry, id, Run(registry, id, log, steps[..k]), steps[k]) {
        if k < n {
          assert init[..k] == steps[..k] && init[k] == steps[k];
        }
      }
    }
  }

  // ---------------------------------------------------------------------
  // Without one, some completion always makes progress
  // ---------------------------------------------------------------------

  /** The incomplete personas that a gate holds back. */
  ghost function Stuck(s: AggState): set<Persona> {
    set p | p in s.feedbackPending && p !in s.completed && IsStale(s, p)
  }

  ghost function Open(d: WorkflowDef, s: AggState): set<Persona> {
    (set p | p in d.required && p !in s.completed) + (set p | p in s.feedbackPending.Values && p !in s.completed)
  }

  /** Some incomplete persona of interest is not held back. */
  lemma Progress(d: WorkflowDef, s: AggState, p: Persona) returns (q: Persona)
    requires !Wedged(d, s) && p in d.required && p !in s.completed
    ensures q in Open(d, s) && q !in s.completed && !IsStale(s, q)
  {
    if !IsStale(s, p) {
      return p;
    }
    var c := Stuck(s);
    assert p in c;
    assert !WedgedSet(s, c);
    var r :| !HeldInside(s, c, r);
    q := s.feedbackPending[r];
  }

  /** Crediting a completion never wedges anything. */
  lemma CreditKeepsUnwedged(d: WorkflowDef, s: AggState, s': AggState)
    requires !Wedged(d, s) && s.completed <= s'.completed
    requires forall k :: k in s'.feedbackPending ==> HasGate(s.feedbackPending, k, s'.feedbackPending[k])
    ensures !Wedged(d, s')
  {
    if Wedged(d, s') {
      var c: set<Persona> :| WedgedSet(s', c) && HoldsRequired(d, c);
      forall p ensures HeldInside(s, c, p) {
        assert HeldInside(s', c, p);
      }
    }
  }

  lemma DeliveryDelivers(id: string, p: Persona)
    requires id != ""
    ensures Delivers(id, Delivery(id, p))
  {
    assert |id + ":persona:" + p| > |id|;
  }

  lemma {:induction false} CompletingSteps(registry: Registry, id: string, log: seq<Envelope>, d: WorkflowDef)
      returns (steps: seq<Step>)
    requires id != ""
    requires var s := Load(registry, id, log);
      s.status == Running && s.def == Some(d) && !Wedged(d, s)
    ensures Deliveries(id, steps) && Finishes(registry, id, log, steps)
    decreases |Open(d, Load(registry, id, log))|
  {
    hide Load, Next, Completing, TrackingEvents, ApplyAll, Wedged, Run, Open;
    var s := Load(registry, id, log);
    LoadedID(registry, id, log);
    var q := "";
    if !AllRequiredDone(s) {
      var p :| p in d.required && p !in s.completed;
      q := Progress(d, s, p);
    }
    var step := Delivery(id, q);
    DeliveryDelivers(id, q);
    var s1 := ApplyAll(s, TrackingEvents(s, step.env));
    DeliveredState(s, step.env);
    Delivered(registry, id, log, step);
    RunNothing(registry, id, log);
    if Completing(registry, id, log, step) {
      steps := [step];
      assert steps[..0] == [];
      return;
    }
    var next := Next(registry, id, log, step);
    CreditKeepsUnwedged(d, s, s1);
    OpenShrinks(d, s, s1, q);
    SameVersionless(d, s1, Load(registry, id, next));
    var rest := CompletingSteps(registry, id, next, d);
    steps := [step] + rest;
    RunFirst(registry, id, log, step, rest);
  }

  lemma SameVersionless(d: WorkflowDef, s: AggState, s': AggState)
    requires s' == s.(version := s'.version)
    ensures Open(d, s') == Open(d, s)
    ensures Wedged(d, s') <==> Wedged(d, s)
    ensures forall c :: WedgedSet(s', c) <==> WedgedSet(s, c)
  {
    forall c: set<Persona> ensures WedgedSet(s', c) <==> WedgedSet(s, c) {
      assert forall p :: HeldInside(s', c, p) <==> HeldInside(s, c, p);
    }
  }

  lemma OpenShrinks(d: WorkflowDef, s: AggState, s1: AggState, q: Persona)
    requires q in Open(d, s) && s1.completed == s.completed + {q}
    requires s1.feedbackPending == OpenGates(s.feedbackPending, q)
    ensures |Open(d, s1)| < |Open(d, s)|
  {
    assert Open(d, s1) <= Open(d, s) - {q};
    SubsetSize(Open(d, s1), Open(d, s) - {q});
  }

  /** A run may be read from its first step. */
  lemma {:induction false} RunFirst(registry: Registry, id: string, log: seq<Envelope>, step: Step, rest: seq<Step>)
    requires Finishes(registry, id, Next(registry, id, log, step), rest)
    ensures Finishes(registry, id, log, [step] + rest)
  {
    hide Completing, Next, Run;
    var next := Next(registry, id, log, step);
    var k: nat :| k < |rest| && Completing(registry, id, Run(registry, id, next, rest[..k]), rest[k]);
    RunShift(registry, id, log, step, rest[..k]);
    assert ([step] + rest)[..k + 1] == [step] + rest[..k];
    assert ([step] + rest)[k + 1] == rest[k];
  }

  lemma {:induction false} RunShift(registry: Registry, id: string, log: seq<Envelope>, step: Step, rest: seq<Step>)
    ensures Run(registry, id, log, [step] + rest) == Run(registry, id, Next(registry, id, log, step), rest)
  {
    hide Next;
    if rest == [] {
      assert [step] + rest == [step] && [step][..0] == [];
      RunNothing(registry, id, log);
    } else {
      var init := rest[..|rest| - 1];
      RunShift(registry, id, log, step, init);
      assert ([step] + rest)[..|rest|] == [step] + init;
    }
  }

  lemma Unreachable(registry: Registry, log: seq<Envelope>, steps: seq<Step>)
    requires Deliveries("", steps)
    ensures !Finishes(registry, "", log, steps)
  {
    hide Completing, Run;
    assert forall i :: 0 <= i < |steps| ==> !Delivers("", steps[i]);
  }

  // ---------------------------------------------------------------------
  // Exactly when
  // ---------------------------------------------------------------------

  /** Deliveries of persona completions can complete a running workflow if and
      only if no required persona is in a wedged set. (An aggregate without an
      identity is out of reach: no persona-scoped event is routed to it.) */
  lemma CompletableIffNotWedged(registry: Registry, id: string, log: seq<Envelope>, d: WorkflowDef)
    requires Load(registry, id, log).status == Running && Load(registry, id, log).def == Some(d)
    ensures (exists steps :: Deliveries(id, steps) && Finishes(registry, id, log, steps))
            <==> id != "" && !Wedged(d, Load(registry, id, log))
  {
    hide Load, Finishes, Deliveries, Delivers;
    var s := Load(registry, id, log);
    if id == "" {
      forall steps | Deliveries(id, steps) ensures !Finishes(registry, id, log, steps) {
        Unreachable(registry, log, steps);
      }
    } else if Wedged(d, s) {
      var c: set<Persona> :| WedgedSet(s, c) && HoldsRequired(d, c);
      forall steps | Deliveries(id, steps) ensures !Finishes(registry, id, log, steps) {
        WedgedForever(registry, id, log, d, c, steps);
      }
    } else {
      var steps := CompletingSteps(registry, id, log, d);
    }
  }

  /** Feedback that names its own source wedges the source: until the log
      changes otherwise, no completion gets the workflow done. */
  lemma SelfFeedbackWedges(registry: Registry, id: string, log: seq<Envelope>, d: WorkflowDef, p: Persona)
    requires Load(registry, id, log).status == Running && Load(registry, id, log).def == Some(d)
    requires p in d.required && Gated(log, p, p) && !Done(PreAttached(registry, log), log, p)
    ensures !exists steps :: Deliveries(id, steps) && Finishes(registry, id, log, steps)
  {
    hide Load, Finishes, Deliveries;
    LoadMeaning(registry, id, log, p, p, "", Fingerprint("", multiset{}));
    assert WedgedSet(Load(registry, id, log), {p}) && p in {p};
    CompletableIffNotWedged(registry, id, log, d);
  }
}
