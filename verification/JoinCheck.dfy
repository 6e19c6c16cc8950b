/** The join check of the dispatcher: a one-pass scan of a correlation's
    events with mutable bookkeeping, and its declarative meaning. An event is
    identified by its position in the chain. */
module JoinCheck {
  import opened Events
  import opened WorkflowGraph

  // ---------------------------------------------------------------------
  // The scan
  // ---------------------------------------------------------------------

  /** A rendered verdict; it is sealed by the completion that came with it. */
  datatype Tracker = Tracker(active: bool, sealed: bool, advisory: bool)

  datatype Scan = Scan(
    latest: map<Persona, nat>,        // the event that completes the persona
    verdicts: map<Persona, Tracker>,
    pendingStale: set<Persona>,       // invalidated, fresh round not begun
    retriggerTarget: Persona)         // whose completion begins it

  const EmptyScan := Scan(map[], map[], {}, "")

  ghost function StrictlyDownstream(g: Graph, t: Persona): set<Persona> {
    Downstream(g, t) - {t}
  }

  /** What feedback to t invalidates: the nodes that t precedes, t excepted. */
  lemma StrictlyDownstreamIff(g: Graph, t: Persona, x: Persona)
    ensures x in StrictlyDownstream(g, t) <==> x != t && Precedes(g, t, x)
  {
    DownstreamIff(g, t, x);
  }

  function Seal(verdicts: map<Persona, Tracker>, p: Persona): map<Persona, Tracker> {
    if p !in verdicts then verdicts
    else if verdicts[p].sealed then verdicts - {p}
    else verdicts[p := verdicts[p].(sealed := true)]
  }

  ghost function Reopen(def: Option<WorkflowDef>, s: Scan, p: Persona): Scan {
    if s.retriggerTarget != "" && p == s.retriggerTarget && def.Some?
    then s.(pendingStale := s.pendingStale - StrictlyDownstream(def.value.graph, p), retriggerTarget := "")
    else s
  }

  ghost function ScanEvent(def: Option<WorkflowDef>, s: Scan, i: nat, e: Event): Scan {
    match e
    case PersonaFailed(f) =>
      if def.Some? && def.value.partialReviewOnFailure && f.persona != ""
      then s.(latest := s.latest[f.persona := i]) else s
    case PersonaCompleted(p) =>
      var s1 := Reopen(def, s, p);
      if p in s1.pendingStale then s1
      else s1.(latest := s1.latest[p := i], verdicts := Seal(s1.verdicts, p))
    case VerdictRendered(v) =>
      if v.sourcePersona == "" then s
      else s.(verdicts := s.verdicts[v.sourcePersona := Tracker(v.outcome == VerdictFail, false, v.advisory)])
    case FeedbackGenerated(fb) =>
      if def.None? || fb.target == "" then s
      else
        var stale := StrictlyDownstream(def.value.graph, fb.target);
        Scan(s.latest - stale, s.verdicts - stale, s.pendingStale + stale, fb.target)
    case _ => s
  }

  ghost function ScanTo(def: Option<WorkflowDef>, events: seq<Envelope>, n: nat): Scan
    requires n <= |events|
  {
    if n == 0 then EmptyScan else ScanEvent(def, ScanTo(def, events, n - 1), n - 1, events[n - 1].event)
  }

  method ScanChain(def: Option<WorkflowDef>, events: seq<Envelope>) returns (s: Scan)
    ensures s == ScanTo(def, events, |events|)
  {
    var latest: map<Persona, nat> := map[];
    var verdicts: map<Persona, Tracker> := map[];
    var pendingStale: set<Persona> := {};
    var retriggerTarget := "";
    for i := 0 to |events|
      invariant Scan(latest, verdicts, pendingStale, retriggerTarget) == ScanTo(def, events, i)
    {
      match events[i].event {
        case PersonaFailed(f) =>
          if def.Some? && def.value.partialReviewOnFailure && f.persona != "" {
            latest := latest[f.persona := i];
          }
        case PersonaCompleted(p) =>
          if retriggerTarget != "" && p == retriggerTarget && def.Some? {
            var downstream := DownstreamOf(def.value.graph, retriggerTarget);
            pendingStale := pendingStale - (downstream - {retriggerTarget});
            retriggerTarget := "";
          }
          if p !in pendingStale {
            latest := latest[p := i];
            if p in verdicts {
              if verdicts[p].sealed {
                verdicts := verdicts - {p};
              } else {
                verdicts := verdicts[p := verdicts[p].(sealed := true)];
              }
            }
          }
        case VerdictRendered(v) =>
          if v.sourcePersona != "" {
            verdicts := verdicts[v.sourcePersona := Tracker(v.outcome == VerdictFail, false, v.advisory)];
          }
        case FeedbackGenerated(fb) =>
          if def.Some? && fb.target != "" {
            var downstream := DownstreamOf(def.value.graph, fb.target);
            var stale := downstream - {fb.target};
            latest := latest - stale;
            verdicts := verdicts - stale;
            pendingStale := pendingStale + stale;
            retriggerTarget := fb.target;
          }
        case _ =>
      }
    }
    s := Scan(latest, verdicts, pendingStale, retriggerTarget);
  }

  // ---------------------------------------------------------------------
  // The verdict on the join
  // ---------------------------------------------------------------------

  datatype Missing = Absent(persona: Persona) | PendingFeedback(persona: Persona)

  datatype JoinResult = StoreError | Unsatisfied(missing: seq<Missing>) | Satisfied(fingerprint: multiset<nat>)

  predicate ConsolidatorBypass(def: Option<WorkflowDef>, handler: Persona, predecessor: Persona) {
    && def.Some? && def.value.reviewConsolidator != ""
    && handler == def.value.reviewConsolidator
    && IsConsolidatedReviewer(def.value, predecessor)
  }

  /** A failing verdict of x still awaits its feedback, as far as `handler`
      is concerned. */
  predicate AwaitsFeedback(def: Option<WorkflowDef>, handler: Persona, verdicts: map<Persona, Tracker>, x: Persona) {
    && x in verdicts && verdicts[x].active && !verdicts[x].advisory
    && def.Some? && |def.value.retriggeredBy| > 0
    && !ConsolidatorBypass(def, handler, x)
  }

  predicate Ready(def: Option<WorkflowDef>, handler: Persona, s: Scan, x: Persona) {
    x in s.latest && !AwaitsFeedback(def, handler, s.verdicts, x)
  }

  function MissingOf(def: Option<WorkflowDef>, handler: Persona, required: seq<Persona>, s: Scan): seq<Missing> {
    if required == [] then []
    else
      var x := required[|required| - 1];
      MissingOf(def, handler, required[..|required| - 1], s) +
      if x !in s.latest then [Absent(x)]
      else if AwaitsFeedback(def, handler, s.verdicts, x) then [PendingFeedback(x)]
      else []
  }

  lemma {:induction false} NothingMissing(def: Option<WorkflowDef>, handler: Persona, required: seq<Persona>, s: Scan)
    ensures MissingOf(def, handler, required, s) == [] <==> forall x :: x in required ==> Ready(def, handler, s, x)
  {
    hide AwaitsFeedback;
    if required != [] {
      var init, x := required[..|required| - 1], required[|required| - 1];
      NothingMissing(def, handler, init, s);
      assert x in required && forall y :: y in required <==> y in init || y == x;
      assert MissingOf(def, handler, required, s) == [] <==>
          MissingOf(def, handler, init, s) == [] && Ready(def, handler, s, x);
    }
  }

  /** The recorded events of the ready predecessors. */
  function IdsOf(def: Option<WorkflowDef>, handler: Persona, required: seq<Persona>, s: Scan): multiset<nat> {
    if required == [] then multiset{}
    else
      var x := required[|required| - 1];
      IdsOf(def, handler, required[..|required| - 1], s) +
      if Ready(def, handler, s, x) then multiset{s.latest[x]} else multiset{}
  }

  /** checkJoinCondition. `loaded` is what the store returned, if it did. */
  method CheckJoinCondition(def: Option<WorkflowDef>, handler: Persona, required: seq<Persona>,
                            loaded: Option<seq<Envelope>>) returns (result: JoinResult)
    ensures result.StoreError? <==> loaded.None?
    ensures loaded.Some? ==>
      var s := ScanTo(def, loaded.value, |loaded.value|);
      var missing := MissingOf(def, handler, required, s);
      result == if missing == [] then Satisfied(IdsOf(def, handler, required, s)) else Unsatisfied(missing)
  {
    if loaded.None? {
      return StoreError;
    }
    var s := ScanChain(def, loaded.value);
    var ids: multiset<nat> := multiset{};
    var missing: seq<Missing> := [];
    for i := 0 to |required|
      invariant missing == MissingOf(def, handler, required[..i], s)
      invariant ids == IdsOf(def, handler, required[..i], s)
    {
      assert required[..i + 1][..i] == required[..i];
      var req := required[i];
      if req !in s.latest {
        missing := missing + [Absent(req)];
        continue;
      }
      if req in s.verdicts && s.verdicts[req].active && !s.verdicts[req].advisory
         && def.Some? && |def.value.retriggeredBy| > 0 {
        if !ConsolidatorBypass(def, handler, req) {
          missing := missing + [PendingFeedback(req)];
          continue;
        }
      }
      ids := ids + multiset{s.latest[req]};
    }
    assert required[..|required|] == required;
    if |missing| > 0 {
      return Unsatisfied(missing);
    }
    return Satisfied(ids);
  }

  // ---------------------------------------------------------------------
  // Declarative meaning: rounds
  // ---------------------------------------------------------------------

  /** The feedback events the scan acts on. */
  predicate IsFeedback(def: Option<WorkflowDef>, e: Event) {
    e.FeedbackGenerated? && def.Some? && e.feedback.target != ""
  }

  /** The event is feedback that invalidates x. */
  ghost predicate Hits(def: Option<WorkflowDef>, e: Event, x: Persona) {
    IsFeedback(def, e) && x in StrictlyDownstream(def.value.graph, e.feedback.target)
  }

  /** i is the last feedback before n that invalidates x. */
  ghost predicate LastHit(def: Option<WorkflowDef>, events: seq<Envelope>, n: nat, x: Persona, i: int)
    requires n <= |events|
  {
    0 <= i < n && Hits(def, events[i].event, x) && forall j :: i < j < n ==> !Hits(def, events[j].event, x)
  }

  /** The target of the feedback at i completed at j, with no other feedback
      in between. */
  ghost predicate Reopens(def: Option<WorkflowDef>, events: seq<Envelope>, i: nat, j: int)
    requires i < |events| && events[i].event.FeedbackGenerated?
  {
    && i < j < |events| && events[j].event == PersonaCompleted(events[i].event.feedback.target)
    && forall k :: i < k < j ==> !IsFeedback(def, events[k].event)
  }

  ghost predicate Reopened(def: Option<WorkflowDef>, events: seq<Envelope>, n: nat, i: nat)
    requires i < n <= |events| && events[i].event.FeedbackGenerated?
  {
    exists j :: j < n && Reopens(def, events, i, j)
  }

  /** x is stale: the last feedback that invalidated it has not been answered
      by its target. */
  ghost predicate Stale(def: Option<WorkflowDef>, events: seq<Envelope>, n: nat, x: Persona)
    requires n <= |events|
  {
    exists i :: LastHit(def, events, n, x, i) && !Reopened(def, events, n, i)
  }

  ghost predicate AwaitingAt(def: Option<WorkflowDef>, events: seq<Envelope>, n: nat, t: Persona, i: int)
    requires n <= |events|
  {
    && 0 <= i < n && IsFeedback(def, events[i].event) && events[i].event.feedback.target == t
    && forall k :: i < k < n ==> !IsFeedback(def, events[k].event) && events[k].event != PersonaCompleted(t)
  }

  /** The last feedback sent work back to t, and t has not completed since. */
  ghost predicate Awaiting(def: Option<WorkflowDef>, events: seq<Envelope>, n: nat, t: Persona)
    requires n <= |events|
  {
    exists i :: AwaitingAt(def, events, n, t, i)
  }

  lemma {:induction false} RetriggerMeaning(def: Option<WorkflowDef>, events: seq<Envelope>, n: nat, t: Persona)
    requires n <= |events| && t != ""
    ensures ScanTo(def, events, n).retriggerTarget == t <==> Awaiting(def, events, n, t)
  {
    hide StrictlyDownstream, Seal;
    if n > 0 {
      RetriggerMeaning(def, events, n - 1, t);
      var e := events[n - 1].event;
      if IsFeedback(def, e) {
        if e.feedback.target == t {
          assert AwaitingAt(def, events, n, t, n - 1);
        }
      } else if e != PersonaCompleted(t) && Awaiting(def, events, n - 1, t) {
        var i :| AwaitingAt(def, events, n - 1, t, i);
        assert AwaitingAt(def, events, n, t, i);
      }
      if Awaiting(def, events, n, t) && !IsFeedback(def, e) {
        var i :| AwaitingAt(def, events, n, t, i);
        assert AwaitingAt(def, events, n - 1, t, i);
      }
    }
  }

  lemma StaleStep(def: Option<WorkflowDef>, events: seq<Envelope>, n: nat, x: Persona)
    requires 0 < n <= |events|
    ensures var e := events[n - 1].event;
      Stale(def, events, n, x) <==>
        Hits(def, e, x)
        || (Stale(def, events, n - 1, x)
            && !(e.PersonaCompleted? && e.completedBy != "" && def.Some?
                 && Awaiting(def, events, n - 1, e.completedBy)
                 && x in StrictlyDownstream(def.value.graph, e.completedBy)))
  {
    hide StrictlyDownstream;
    var e := events[n - 1].event;
    if Hits(def, e, x) {
      assert LastHit(def, events, n, x, n - 1);
      assert !Reopened(def, events, n, n - 1);
    } else {
      if Stale(def, events, n - 1, x) {
        var i :| LastHit(def, events, n - 1, x, i) && !Reopened(def, events, n - 1, i);
        assert LastHit(def, events, n, x, i);
        if Reopened(def, events, n, i) {
          assert Reopens(def, events, i, n - 1);
          AwaitsUnlessReopened(def, events, n - 1, i);
          assert forall i' :: LastHit(def, events, n, x, i') ==> i' == i;
        }
        if e.PersonaCompleted? && e.completedBy != "" && def.Some?
           && Awaiting(def, events, n - 1, e.completedBy)
           && x in StrictlyDownstream(def.value.graph, e.completedBy) {
          AwaitedReopens(def, events, n, x, i);
        }
      }
      if Stale(def, events, n, x) {
        var i :| LastHit(def, events, n, x, i) && !Reopened(def, events, n, i);
        assert LastHit(def, events, n - 1, x, i);
        assert !Reopened(def, events, n - 1, i);
      }
    }
  }

  /** Without another feedback, an unanswered one keeps its target awaited. */
  lemma AwaitsUnlessReopened(def: Option<WorkflowDef>, events: seq<Envelope>, n: nat, i: nat)
    requires i < n <= |events| && IsFeedback(def, events[i].event)
    requires !Reopened(def, events, n, i)
    requires forall k :: i < k < n ==> !IsFeedback(def, events[k].event)
    ensures Awaiting(def, events, n, events[i].event.feedback.target)
  {
    var t := events[i].event.feedback.target;
    forall k | i < k < n ensures events[k].event != PersonaCompleted(t) {
      assert !Reopens(def, events, i, k);
    }
    assert AwaitingAt(def, events, n, t, i);
  }

  /** The completion of the awaited target reopens the round it was sent
      back for. */
  lemma AwaitedReopens(def: Option<WorkflowDef>, events: seq<Envelope>, n: nat, x: Persona, i: nat)
    requires 0 < n <= |events| && i < n - 1 && LastHit(def, events, n - 1, x, i)
    requires var e := events[n - 1].event;
      e.PersonaCompleted? && def.Some? && Awaiting(def, events, n - 1, e.completedBy)
      && x in StrictlyDownstream(def.value.graph, e.completedBy)
    ensures Reopened(def, events, n, i)
  {
    hide StrictlyDownstream;
    var e := events[n - 1].event;
    var k :| AwaitingAt(def, events, n - 1, e.completedBy, k);
    assert Hits(def, events[k].event, x);
    assert k == i;
    assert Reopens(def, events, i, n - 1);
  }

  lemma {:induction false} PendingMeaning(def: Option<WorkflowDef>, events: seq<Envelope>, n: nat, x: Persona)
    requires n <= |events|
    ensures x in ScanTo(def, events, n).pendingStale <==> Stale(def, events, n, x)
  {
    hide StrictlyDownstream, Seal, Stale, Awaiting;
    if n > 0 {
      PendingMeaning(def, events, n - 1, x);
      StaleStep(def, events, n, x);
      var e := events[n - 1].event;
      if e.PersonaCompleted? && e.completedBy != "" {
        RetriggerMeaning(def, events, n - 1, e.completedBy);
      }
    } else {
      NothingStale(def, events, x);
    }
  }

  lemma NothingStale(def: Option<WorkflowDef>, events: seq<Envelope>, x: Persona)
    ensures !Stale(def, events, 0, x)
  {}

  // ---------------------------------------------------------------------
  // Declarative meaning: completions and verdicts
  // ---------------------------------------------------------------------

  /** The event at k completes x, and x was not stale when it arrived. */
  ghost predicate CompletesFresh(def: Option<WorkflowDef>, events: seq<Envelope>, k: int, x: Persona) {
    0 <= k < |events| && events[k].event == PersonaCompleted(x) && !Stale(def, events, k, x)
  }

  /** The event at k counts as x being done: a fresh completion, or a failure
      that a partial review absorbs. */
  ghost predicate Counts(def: Option<WorkflowDef>, events: seq<Envelope>, k: int, x: Persona) {
    || CompletesFresh(def, events, k, x)
    || (0 <= k < |events| && events[k].event.PersonaFailed? && events[k].event.failure.persona == x && x != ""
        && def.Some? && def.value.partialReviewOnFailure)
  }

  /** k is the last event before n at which x counts as done, and no feedback
      invalidated x since. */
  ghost predicate DoneAt(def: Option<WorkflowDef>, events: seq<Envelope>, n: nat, x: Persona, k: int)
    requires n <= |events|
  {
    && k < n && Counts(def, events, k, x)
    && forall j :: k < j < n ==> !Counts(def, events, j, x) && !Hits(def, events[j].event, x)
  }

  ghost predicate Recorded(s: Scan, x: Persona, k: int) {
    x in s.latest && s.latest[x] == k
  }

  lemma LatestStep(def: Option<WorkflowDef>, events: seq<Envelope>, n: nat, x: Persona, k: nat)
    requires 0 < n <= |events|
    ensures Recorded(ScanTo(def, events, n), x, k) <==>
      if Counts(def, events, n - 1, x) then k == n - 1
      else Recorded(ScanTo(def, events, n - 1), x, k) && !Hits(def, events[n - 1].event, x)
  {
    hide Seal, Stale, Downstream;
    PendingMeaning(def, events, n - 1, x);
    var e := events[n - 1].event;
    if e.PersonaCompleted? {
      PendingMeaning(def, events, n - 1, e.completedBy);
    }
  }

  /** The scan records k for x exactly when x is done at k. */
  lemma {:induction false} LatestMeaning(def: Option<WorkflowDef>, events: seq<Envelope>, n: nat, x: Persona, k: nat)
    requires n <= |events|
    ensures Recorded(ScanTo(def, events, n), x, k) <==> DoneAt(def, events, n, x, k)
  {
    hide Counts, Hits, ScanEvent;
    if n > 0 {
      LatestMeaning(def, events, n - 1, x, k);
      LatestStep(def, events, n, x, k);
    }
  }

  /** How many fresh completions of x lie in [from, n). */
  ghost function FreshCompletions(def: Option<WorkflowDef>, events: seq<Envelope>, from: nat, n: nat, x: Persona): nat
    requires n <= |events|
    decreases n
  {
    if n <= from then 0
    else FreshCompletions(def, events, from, n - 1, x) + if CompletesFresh(def, events, n - 1, x) then 1 else 0
  }

  predicate RendersVerdict(e: Event, x: Persona) {
    e.VerdictRendered? && e.verdict.sourcePersona == x && x != ""
  }

  /** v is the last verdict of x before n; no feedback invalidated x since,
      and x began at most one further round. */
  ghost predicate VerdictAt(def: Option<WorkflowDef>, events: seq<Envelope>, n: nat, x: Persona, v: int)
    requires n <= |events|
  {
    && 0 <= v < n && RendersVerdict(events[v].event, x)
    && (forall j :: v < j < n ==> !RendersVerdict(events[j].event, x) && !Hits(def, events[j].event, x))
    && FreshCompletions(def, events, v + 1, n, x) <= 1
  }

  ghost function TrackerFrom(def: Option<WorkflowDef>, events: seq<Envelope>, n: nat, x: Persona, v: nat): Tracker
    requires v < n <= |events| && events[v].event.VerdictRendered?
  {
    var verdict := events[v].event.verdict;
    Tracker(verdict.outcome == VerdictFail, FreshCompletions(def, events, v + 1, n, x) == 1, verdict.advisory)
  }

  lemma VerdictStep(def: Option<WorkflowDef>, events: seq<Envelope>, n: nat, x: Persona)
    requires 0 < n <= |events|
    ensures var before, after := ScanTo(def, events, n - 1).verdicts, ScanTo(def, events, n).verdicts;
      var e := events[n - 1].event;
      && (RendersVerdict(e, x) ==>
            x in after && after[x] == Tracker(e.verdict.outcome == VerdictFail, false, e.verdict.advisory))
      && (Hits(def, e, x) ==> x !in after)
      && (CompletesFresh(def, events, n - 1, x) ==>
            (x in after <==> x in before && !before[x].sealed)
            && (x in after ==> after[x] == before[x].(sealed := true)))
      && (!RendersVerdict(e, x) && !Hits(def, e, x) && !CompletesFresh(def, events, n - 1, x) ==>
            (x in after <==> x in before) && (x in after ==> after[x] == before[x]))
  {
    hide Stale, Downstream;
    PendingMeaning(def, events, n - 1, x);
    var e := events[n - 1].event;
    if e.PersonaCompleted? {
      PendingMeaning(def, events, n - 1, e.completedBy);
    }
  }

  /** The scan tracks a verdict of x exactly when one is current, and tracks
      it as rendered. */
  lemma {:induction false} VerdictMeaning(def: Option<WorkflowDef>, events: seq<Envelope>, n: nat, x: Persona)
    requires n <= |events|
    ensures var verdicts := ScanTo(def, events, n).verdicts;
      && (x in verdicts <==> exists v :: VerdictAt(def, events, n, x, v))
      && forall v :: VerdictAt(def, events, n, x, v) ==>
           x in verdicts && verdicts[x] == TrackerFrom(def, events, n, x, v)
  {
    hide Hits, ScanEvent, CompletesFresh;
    if n > 0 {
      VerdictMeaning(def, events, n - 1, x);
      VerdictStep(def, events, n, x);
      var e := events[n - 1].event;
      var verdicts := ScanTo(def, events, n).verdicts;
      if RendersVerdict(e, x) {
        assert VerdictAt(def, events, n, x, n - 1);
      } else {
        forall v | VerdictAt(def, events, n, x, v)
          ensures x in verdicts && verdicts[x] == TrackerFrom(def, events, n, x, v)
        {
          assert VerdictAt(def, events, n - 1, x, v);
        }
        if x in verdicts {
          var v :| VerdictAt(def, events, n - 1, x, v);
          assert VerdictAt(def, events, n, x, v);
        }
      }
    }
  }

  // ---------------------------------------------------------------------
  // The join
  // ---------------------------------------------------------------------

  /** x blocks the join with a failing verdict: its current verdict failed,
      was not advisory, and belongs to a workflow that sends work back. Only
      the review consolidator goes ahead regardless, for the reviewers of its
      barrier. */
  ghost predicate Blocked(def: Option<WorkflowDef>, handler: Persona, events: seq<Envelope>, x: Persona) {
    && def.Some? && |def.value.retriggeredBy| > 0
    && !(handler != "" && handler == def.value.reviewConsolidator
         && def.value.synchronousFeedback && x != "" && x in def.value.consolidatedReviewers)
    && exists v :: VerdictAt(def, events, |events|, x, v)
         && events[v].event.verdict.outcome == VerdictFail && !events[v].event.verdict.advisory
  }

  lemma ReadyMeaning(def: Option<WorkflowDef>, handler: Persona, events: seq<Envelope>, x: Persona)
    ensures Ready(def, handler, ScanTo(def, events, |events|), x) <==>
      (exists k :: DoneAt(def, events, |events|, x, k)) && !Blocked(def, handler, events, x)
  {
    hide ScanTo, Counts, Hits;
    var s := ScanTo(def, events, |events|);
    VerdictMeaning(def, events, |events|, x);
    if x in s.latest {
      LatestMeaning(def, events, |events|, x, s.latest[x]);
    }
    if k :| DoneAt(def, events, |events|, x, k) {
      assert k >= 0 by { CountsInRange(def, events, k, x); }
      LatestMeaning(def, events, |events|, x, k);
    }
    assert AwaitsFeedback(def, handler, s.verdicts, x) <==> Blocked(def, handler, events, x);
  }

  lemma CountsInRange(def: Option<WorkflowDef>, events: seq<Envelope>, k: int, x: Persona)
    requires Counts(def, events, k, x)
    ensures 0 <= k < |events|
  {}

  /** The stateful scan is exact: the join is satisfied if and only if every
      predecessor is done and none blocks it. */
  lemma JoinExact(def: Option<WorkflowDef>, handler: Persona, required: seq<Persona>, events: seq<Envelope>)
    ensures MissingOf(def, handler, required, ScanTo(def, events, |events|)) == [] <==>
      forall x :: x in required ==>
        (exists k :: DoneAt(def, events, |events|, x, k)) && !Blocked(def, handler, events, x)
  {
    hide Ready, DoneAt, Blocked;
    NothingMissing(def, handler, required, ScanTo(def, events, |events|));
    forall x {
      ReadyMeaning(def, handler, events, x);
    }
  }

  // ---------------------------------------------------------------------
  // The fingerprint, and what is missing
  // ---------------------------------------------------------------------

  /** The predecessors, by their place in the list, that are done at k. */
  ghost function DoneThere(def: Option<WorkflowDef>, required: seq<Persona>, events: seq<Envelope>, k: nat): set<nat> {
    set i: nat | i < |required| && DoneAt(def, events, |events|, required[i], k)
  }

  function RecordedThere(required: seq<Persona>, s: Scan, k: nat): set<nat> {
    set i: nat | i < |required| && required[i] in s.latest && s.latest[required[i]] == k
  }

  lemma {:induction false} IdsCount(def: Option<WorkflowDef>, handler: Persona, required: seq<Persona>, s: Scan, k: nat)
    requires forall x :: x in required ==> Ready(def, handler, s, x)
    ensures IdsOf(def, handler, required, s)[k] == |RecordedThere(required, s, k)|
  {
    hide AwaitsFeedback, RecordedThere;
    if required == [] {
      NowhereRecorded(s, k);
    } else {
      var init, x := required[..|required| - 1], required[|required| - 1];
      assert forall y :: y in init ==> y in required;
      IdsCount(def, handler, init, s, k);
      assert Ready(def, handler, s, x);
      RecordedSnoc(init, x, s, k);
      assert required == init + [x];
    }
  }

  lemma NowhereRecorded(s: Scan, k: nat)
    ensures RecordedThere([], s, k) == {}
  {}

  lemma RecordedSnoc(init: seq<Persona>, x: Persona, s: Scan, k: nat)
    ensures |RecordedThere(init + [x], s, k)|
            == |RecordedThere(init, s, k)| + if x in s.latest && s.latest[x] == k then 1 else 0
  {
    var before, after := RecordedThere(init, s, k), RecordedThere(init + [x], s, k);
    assert |init| !in before;
    if x in s.latest && s.latest[x] == k {
      assert after == before + {|init|};
    } else {
      assert after == before;
    }
  }

  /** The fingerprint of a satisfied join holds each event as often as there
      are predecessors that are done at it, and nothing else. */
  lemma FingerprintExact(def: Option<WorkflowDef>, handler: Persona, required: seq<Persona>, events: seq<Envelope>,
                         k: nat)
    requires forall x :: x in required ==>
      (exists j :: DoneAt(def, events, |events|, x, j)) && !Blocked(def, handler, events, x)
    ensures IdsOf(def, handler, required, ScanTo(def, events, |events|))[k] == |DoneThere(def, required, events, k)|
  {
    hide ScanTo, DoneAt, Blocked, Ready, Recorded;
    var s := ScanTo(def, events, |events|);
    forall x | x in required ensures Ready(def, handler, s, x) {
      ReadyMeaning(def, handler, events, x);
    }
    IdsCount(def, handler, required, s, k);
    forall i: nat | i < |required|
      ensures required[i] in s.latest && s.latest[required[i]] == k <==> DoneAt(def, events, |events|, required[i], k)
    {
      LatestMeaning(def, events, |events|, required[i], k);
      RecordedIs(s, required[i], k);
    }
    assert RecordedThere(required, s, k) == DoneThere(def, required, events, k);
  }

  lemma RecordedIs(s: Scan, x: Persona, k: nat)
    ensures Recorded(s, x, k) <==> x in s.latest && s.latest[x] == k
  {}

  /** Two satisfied joins of a handler have the same fingerprint, and so count
      as the same round, exactly when their predecessors are done at the same
      events, equally often. */
  lemma SameFingerprintIff(def: Option<WorkflowDef>, handler: Persona, required: seq<Persona>,
                           events: seq<Envelope>, events': seq<Envelope>)
    requires forall x :: x in required ==>
      (exists j :: DoneAt(def, events, |events|, x, j)) && !Blocked(def, handler, events, x)
    requires forall x :: x in required ==>
      (exists j :: DoneAt(def, events', |events'|, x, j)) && !Blocked(def, handler, events', x)
    ensures IdsOf(def, handler, required, ScanTo(def, events, |events|))
            == IdsOf(def, handler, required, ScanTo(def, events', |events'|)) <==>
      forall k: nat :: |DoneThere(def, required, events, k)| == |DoneThere(def, required, events', k)|
  {
    hide ScanTo, DoneAt, Blocked, IdsOf, DoneThere;
    var s, s' := ScanTo(def, events, |events|), ScanTo(def, events', |events'|);
    forall k: nat
      ensures IdsOf(def, handler, required, s)[k] == |DoneThere(def, required, events, k)|
      ensures IdsOf(def, handler, required, s')[k] == |DoneThere(def, required, events', k)|
    {
      FingerprintExact(def, handler, required, events, k);
      FingerprintExact(def, handler, required, events', k);
    }
  }

  predicate Increasing(idx: seq<nat>, bound: nat) {
    (forall a, b :: 0 <= a < b < |idx| ==> idx[a] < idx[b]) && forall a :: 0 <= a < |idx| ==> idx[a] < bound
  }

  lemma {:induction false} MissingSelects(def: Option<WorkflowDef>, handler: Persona, required: seq<Persona>, s: Scan)
    returns (idx: seq<nat>)
    ensures var missing := MissingOf(def, handler, required, s);
      && |idx| == |missing| && Increasing(idx, |required|)
      && (forall i: nat :: i < |required| ==> (i in idx <==> !Ready(def, handler, s, required[i])))
      && forall a :: 0 <= a < |idx| ==>
           missing[a] == if required[idx[a]] in s.latest then PendingFeedback(required[idx[a]])
                         else Absent(required[idx[a]])
  {
    hide AwaitsFeedback;
    idx := [];
    if required != [] {
      var n := |required| - 1;
      var before := MissingSelects(def, handler, required[..n], s);
      idx := before;
      if !Ready(def, handler, s, required[n]) {
        idx := before + [n];
      }
      forall i: nat | i < |required| ensures i in idx <==> !Ready(def, handler, s, required[i]) {
        if i < n {
          assert required[..n][i] == required[i];
        } else {
          assert n !in before;
        }
      }
    }
  }

  /** What an unsatisfied join reports: in the order of the list, exactly the
      predecessors that are not done or that block it; those that are done as
      awaiting feedback, the others as absent. */
  lemma MissingExact(def: Option<WorkflowDef>, handler: Persona, required: seq<Persona>, events: seq<Envelope>)
    returns (idx: seq<nat>)
    ensures var missing := MissingOf(def, handler, required, ScanTo(def, events, |events|));
      && |idx| == |missing| && Increasing(idx, |required|)
      && (forall i: nat :: i < |required| ==>
            (i in idx <==> !Finished(def, events, required[i]) || Blocked(def, handler, events, required[i])))
      && forall a :: 0 <= a < |idx| ==>
           missing[a] == if Finished(def, events, required[idx[a]]) then PendingFeedback(required[idx[a]])
                         else Absent(required[idx[a]])
  {
    hide ScanTo, DoneAt, Blocked, Ready;
    var s := ScanTo(def, events, |events|);
    idx := MissingSelects(def, handler, required, s);
    forall i: nat | i < |required|
      ensures Ready(def, handler, s, required[i]) <==>
                Finished(def, events, required[i]) && !Blocked(def, handler, events, required[i])
      ensures required[i] in s.latest <==> Finished(def, events, required[i])
    {
      ReadyMeaning(def, handler, events, required[i]);
      FinishedIffRecorded(def, events, required[i]);
    }
  }

  ghost predicate Finished(def: Option<WorkflowDef>, events: seq<Envelope>, x: Persona) {
    exists k :: DoneAt(def, events, |events|, x, k)
  }

  lemma FinishedIffRecorded(def: Option<WorkflowDef>, events: seq<Envelope>, x: Persona)
    ensures x in ScanTo(def, events, |events|).latest <==> Finished(def, events, x)
  {
    hide ScanTo, Counts, Hits;
    var s := ScanTo(def, events, |events|);
    if x in s.latest {
      LatestMeaning(def, events, |events|, x, s.latest[x]);
    }
    if k :| DoneAt(def, events, |events|, x, k) {
      CountsInRange(def, events, k, x);
      LatestMeaning(def, events, |events|, x, k);
    }
  }

  /** Freshness: if the join is satisfied without absorbing failures, then
      after the last feedback that invalidated a predecessor, its target
      completed, and after that the predecessor completed. */
  lemma JoinIsFresh(def: Option<WorkflowDef>, handler: Persona, required: seq<Persona>, events: seq<Envelope>,
                    x: Persona, i: nat)
    requires def.Some? && !def.value.partialReviewOnFailure
    requires MissingOf(def, handler, required, ScanTo(def, events, |events|)) == []
    requires x in required && LastHit(def, events, |events|, x, i)
    ensures exists j: nat, k: nat ::
              && i < j < k < |events|
              && events[j].event == PersonaCompleted(events[i].event.feedback.target)
              && events[k].event == PersonaCompleted(x)
  {
    hide Ready, Blocked, ScanTo, StrictlyDownstream;
    JoinExact(def, handler, required, events);
    var k :| DoneAt(def, events, |events|, x, k);
    assert CompletesFresh(def, events, k, x);
    assert i < k;
    assert LastHit(def, events, k, x, i);
    assert Reopened(def, events, k, i);
    var j :| j < k && Reopens(def, events, i, j);
  }

  /** k is the last completion of x. */
  predicate LastCompletion(events: seq<Envelope>, x: Persona, k: nat) {
    && k < |events| && events[k].event == PersonaCompleted(x)
    && forall j :: k < j < |events| ==> events[j].event != PersonaCompleted(x)
  }

  /** i is the last feedback of the chain. */
  predicate LastFeedback(def: Option<WorkflowDef>, events: seq<Envelope>, i: nat) {
    && i < |events| && IsFeedback(def, events[i].event)
    && forall j :: i < j < |events| ==> !IsFeedback(def, events[j].event)
  }

  lemma FreshAfterReturn(def: Option<WorkflowDef>, events: seq<Envelope>, x: Persona, i: nat, j: nat, k: nat)
    requires LastFeedback(def, events, i) && Reopens(def, events, i, j)
    requires j < k < |events| && events[k].event == PersonaCompleted(x)
    requires Hits(def, events[i].event, x)
    ensures CompletesFresh(def, events, k, x)
  {
    hide StrictlyDownstream;
    assert forall i' :: LastHit(def, events, k, x, i') ==> i' == i;
    assert Reopened(def, events, k, i);
  }

  /** Exactness for one feedback target t: for a persona strictly downstream
      of t the scan records its last completion, provided that lies after a
      completion of t that follows the last feedback; for every other persona
      it records the last completion. */
  lemma SingleTargetExact(def: Option<WorkflowDef>, events: seq<Envelope>, t: Persona, x: Persona, k: nat)
    requires def.Some? && !def.value.partialReviewOnFailure
    requires forall i :: 0 <= i < |events| && IsFeedback(def, events[i].event) ==> events[i].event.feedback.target == t
    ensures Recorded(ScanTo(def, events, |events|), x, k) <==>
      && LastCompletion(events, x, k)
      && (x in StrictlyDownstream(def.value.graph, t) ==>
            forall i: nat :: LastFeedback(def, events, i) ==>
              exists j :: i < j < k && events[j].event == PersonaCompleted(t))
  {
    hide ScanTo, StrictlyDownstream;
    LatestMeaning(def, events, |events|, x, k);
    if x !in StrictlyDownstream(def.value.graph, t) {
      assert forall n, i :: 0 <= n <= |events| ==> !LastHit(def, events, n, x, i);
    } else if i: nat :| LastFeedback(def, events, i) {
      assert Hits(def, events[i].event, x);
      SingleTargetRound(def, events, t, x, k, i);
    } else {
      NoFeedback(def, events);
    }
  }

  lemma {:induction false} NoFeedback(def: Option<WorkflowDef>, events: seq<Envelope>)
    requires forall i: nat :: !LastFeedback(def, events, i)
    ensures forall i :: 0 <= i < |events| ==> !IsFeedback(def, events[i].event)
  {
    var n := |events|;
    while n > 0
      invariant 0 <= n <= |events|
      invariant forall i :: n <= i < |events| ==> !IsFeedback(def, events[i].event)
    {
      n := n - 1;
      assert !LastFeedback(def, events, n);
    }
  }

  lemma SingleTargetRound(def: Option<WorkflowDef>, events: seq<Envelope>, t: Persona, x: Persona, k: nat, i: nat)
    requires def.Some? && !def.value.partialReviewOnFailure
    requires LastFeedback(def, events, i) && events[i].event.feedback.target == t
    requires Hits(def, events[i].event, x)
    ensures DoneAt(def, events, |events|, x, k) <==>
      LastCompletion(events, x, k) && exists j :: i < j < k && events[j].event == PersonaCompleted(t)
  {
    hide StrictlyDownstream;
    if DoneAt(def, events, |events|, x, k) {
      assert i < k;
      assert LastHit(def, events, k, x, i);
      var j :| j < k && Reopens(def, events, i, j);
      forall m | k < m < |events| ensures events[m].event != PersonaCompleted(x) {
        if events[m].event == PersonaCompleted(x) {
          FreshAfterReturn(def, events, x, i, j, m);
        }
      }
    }
    if LastCompletion(events, x, k) {
      if j :| i < j < k && events[j].event == PersonaCompleted(t) {
        FreshAfterReturn(def, events, x, i, j, k);
      }
    }
  }
}
