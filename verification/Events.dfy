/** The event vocabulary of the workflow engine: envelopes, payloads and the
    workflow definitions the aggregate and the dispatcher consult. */
module Events {

  type Persona = string

  datatype Option<+T> = None | Some(value: T)

  datatype Outcome = VerdictPass | VerdictFail | VerdictUnknown

  datatype Issue = Issue(severity: string, category: string, description: string)

  datatype Verdict = Verdict(
    persona: Persona,        // whose work is judged
    sourcePersona: Persona,  // who judged it
    outcome: Outcome,
    issues: seq<Issue>,
    summary: string,
    advisory: bool,
    rawDiagnostics: string)

  datatype FailureKind =
    | Unspecified | IdleTimeout | ProgressTimeout | WallTimeout | Cancelled
    | BackendError | HandlerError | OutputTruncated | Stalled | RateLimited

  datatype Failure = Failure(persona: Persona, kind: FailureKind, backend: string)

  datatype RejectAction = RejectSkip | RejectFail | RejectOther

  datatype Feedback = Feedback(
    target: Persona,
    source: Persona,
    iteration: int,
    issues: seq<Issue>,
    summary: string,
    rawDiagnostics: string)

  datatype Event =
    | WorkflowRequested(workflowID: string)
    | WorkflowStarted(startedID: string)
    | WorkflowCompleted(skippedCount: nat)
    | WorkflowFailed(culprit: Persona, failureKind: FailureKind)
    | WorkflowCancelled
    | WorkflowPaused(retarget: Persona, retargetSource: Persona, retryFromPhase: Persona)
    | WorkflowResumed
    | WorkflowRetried(fromPhase: Persona, invalidated: set<Persona>, automatic: bool)
    | PersonaCompleted(completedBy: Persona)
    | PersonaTracked(tracked: Persona)
    | PersonaFailed(failure: Failure)
    | PersonaFailedTracked(trackedFailure: Failure)
    | AIResponseReceived(tokens: int)
    | FeedbackGenerated(feedback: Feedback)
    | VerdictRendered(verdict: Verdict)
    | VerdictTracked(trackedVerdict: Verdict)
    | TokenBudgetExceeded
    | HintEmitted(hinter: Persona, confidence: real, blockers: seq<string>, triggerID: string)
    | HintApproved(approved: Persona, approvedTrigger: string)
    | HintRejected(rejected: Persona, action: RejectAction)
    | OtherEvent(kind: string)

  datatype Envelope = Envelope(
    aggregateID: string,
    version: int,
    correlationID: string,
    event: Event)

  datatype WorkflowDef = WorkflowDef(
    id: string,
    required: seq<Persona>,
    graph: map<Persona, seq<Persona>>,  // handler -> predecessors
    maxIterations: int,
    escalateOnMaxIter: bool,
    hintThreshold: real,
    retriggeredBy: map<Persona, seq<string>>,
    partialReviewOnFailure: bool,
    synchronousFeedback: bool,
    consolidatedReviewers: seq<Persona>,
    reviewConsolidator: Persona)

  /** Whether a verdict of this persona is joined by the review consolidator. */
  predicate IsConsolidatedReviewer(d: WorkflowDef, source: Persona) {
    d.synchronousFeedback && source != "" && source in d.consolidatedReviewers
  }

  /** The category reviewers whose failure a partial review absorbs. The list
      is the code's: pr-correctness is a category reviewer elsewhere but is
      missing here. */
  predicate IsCategoryReviewer(p: Persona) {
    p in {"pr-security", "pr-concurrency", "pr-error-handling",
          "pr-observability", "pr-api-contract", "pr-idempotency",
          "pr-testing", "pr-integration", "pr-performance",
          "pr-data", "pr-hygiene", "pr-vendor-resilience",
          "pr-docs-concordance", "pr-stale-reference"}
  }

  /** A Go map read with the zero default. */
  function CountOf(m: map<Persona, nat>, p: Persona): nat {
    if p in m then m[p] else 0
  }
}
