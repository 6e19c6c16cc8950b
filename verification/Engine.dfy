/** The engine object: the load-track-decide-append cycle, the workflow
    throttle that gates new workflows, and the watchdog sweep. */
module Engine {
  import opened Events
  import opened Finite
  import opened Aggregate
  import opened Replay
  import opened EngineStep
  import opened EventStore

  // ---------------------------------------------------------------------
  // Throttle
  // ---------------------------------------------------------------------

  /** The queue without the first request of this workflow. */
  function DropRequest(queued: seq<Envelope>, id: string): (r: seq<Envelope>)
    ensures |r| <= |queued|
    ensures forall e :: e in r ==> e in queued
  {
    if queued == [] then []
    else if queued[0].aggregateID == id then queued[1..]
    else [queued[0]] + DropRequest(queued[1..], id)
  }

  lemma {:induction false} DropAt(queued: seq<Envelope>, id: string, i: nat)
    requires i < |queued| && queued[i].aggregateID == id
    requires forall j :: 0 <= j < i ==> queued[j].aggregateID != id
    ensures DropRequest(queued, id) == queued[..i] + queued[i + 1..]
  {
    if i > 0 {
      DropAt(queued[1..], id, i - 1);
      assert [queued[0]] + queued[1..][..i - 1] == queued[..i];
      assert queued[1..][i..] == queued[i + 1..];
    }
  }

  lemma {:induction false} DropNone(queued: seq<Envelope>, id: string)
    requires forall j :: 0 <= j < |queued| ==> queued[j].aggregateID != id
    ensures DropRequest(queued, id) == queued
  {
    if queued != [] {
      DropNone(queued[1..], id);
    }
  }

  class WorkflowThrottle {
    const maxConcurrent: int
    var running: set<string>
    var queued: seq<Envelope>
    var stalledTotal: nat

    /** Only workflow requests are ever parked. */
    predicate Valid()
      reads this
    {
      forall i :: 0 <= i < |queued| ==> queued[i].event.WorkflowRequested?
    }

    constructor (maxConcurrent: int)
      ensures this.maxConcurrent == maxConcurrent && running == {} && queued == [] && stalledTotal == 0
    {
      this.maxConcurrent := maxConcurrent;
      running, queued, stalledTotal := {}, [], 0;
    }

    method ShouldQueue() returns (full: bool)
      ensures full <==> maxConcurrent > 0 && |running| >= maxConcurrent
    {
      if maxConcurrent <= 0 {
        return false;
      }
      return |running| >= maxConcurrent;
    }

    method Enqueue(env: Envelope)
      requires env.event.WorkflowRequested? && Valid()
      modifies this`queued
      ensures Valid() && queued == old(queued) + [env]
    {
      queued := queued + [env];
    }

    method Dequeue() returns (env: Option<Envelope>)
      requires Valid()
      modifies this`queued
      ensures Valid()
      ensures old(queued) == [] ==> env == None && queued == []
      ensures old(queued) != [] ==> env == Some(old(queued)[0]) && queued == old(queued)[1..]
    {
      if |queued| == 0 {
        return None;
      }
      env := Some(queued[0]);
      queued := queued[1..];
    }

    method AddRunning(id: string)
      modifies this`running
      ensures running == old(running) + {id}
    {
      running := running + {id};
    }

    method RemoveRunning(id: string) returns (freed: bool)
      modifies this`running
      ensures running == old(running) - {id} && (freed <==> id in old(running))
    {
      freed := id in running;
      if freed {
        running := running - {id};
      }
    }

    method RemoveQueued(id: string) returns (found: bool)
      requires Valid()
      modifies this`queued
      ensures Valid() && queued == DropRequest(old(queued), id)
      ensures found <==> exists e :: e in old(queued) && e.aggregateID == id
    {
      for i := 0 to |queued|
        invariant queued == old(queued)
        invariant forall j :: 0 <= j < i ==> queued[j].aggregateID != id
      {
        if queued[i].aggregateID == id {
          DropAt(queued, id, i);
          queued := queued[..i] + queued[i + 1..];
          return true;
        }
      }
      DropNone(queued, id);
      found := false;
    }

    method MarkStalled(id: string)
      modifies this`running, this`stalledTotal
      ensures running == old(running) - {id}
      ensures stalledTotal == old(stalledTotal) + if id in old(running) then 1 else 0
    {
      var freed := RemoveRunning(id);
      if freed {
        stalledTotal := stalledTotal + 1;
      }
    }
  }

  function Max(a: int, b: int): int {
    if a < b then b else a
  }

  // ---------------------------------------------------------------------
  // What the engine does not control
  // ---------------------------------------------------------------------

  /** Everything outside the engine while it handles one event. */
  datatype Weather = Weather(
    autopause: bool,        // the switch for pauses on rate limits
    loadFault: bool,
    others: seq<Write>,     // the writers between its load and its append
    appendFault: bool,
    ids: nat -> EventID)    // the identities drawn for its new events

  function Identify(ids: nat -> EventID, events: seq<Envelope>): (r: seq<Row>)
    ensures |r| == |events|
    ensures Envelopes(r) == events
  {
    seq(|events|, i requires 0 <= i < |events| => Row(ids(i), events[i]))
  }

  // ---------------------------------------------------------------------
  // What handling an event does to the store
  // ---------------------------------------------------------------------

  /** The step succeeds: the load did, and either there is nothing to store or
      the append goes in, because it meets no fault, nobody else wrote to the
      aggregate since the load, and its events are new. */
  ghost predicate StepLands(registry: Registry, rows: seq<Row>, id: string, env: Envelope, c: Choice, w: Weather) {
    var stored := StepOutputOf(registry, id, LogOf(rows, id), env, c).stored;
    var now := AppendedAll(rows, w.others);
    && !w.loadFault
    && (stored == []
        || (!w.appendFault && LogOf(now, id) == LogOf(rows, id) && FreshIDs(now, Identify(w.ids, stored))))
  }

  ghost function RowsAfter(registry: Registry, rows: seq<Row>, id: string, env: Envelope, c: Choice, w: Weather)
    : seq<Row>
  {
    var stored := StepOutputOf(registry, id, LogOf(rows, id), env, c).stored;
    if w.loadFault || stored == [] then rows
    else AppendedAll(rows, w.others) + if StepLands(registry, rows, id, env, c, w) then Identify(w.ids, stored) else []
  }

  /** The decision follows the switch, and on a resume the legacy scan stopped
      at a persona it could stop at. */
  predicate RightChoice(registry: Registry, id: string, log: seq<Envelope>, env: Envelope, c: Choice, autopause: bool) {
    && c.rateLimitAutopause == autopause
    && (env.event.WorkflowResumed? ==> ValidPick(Load(registry, id, log), c.pick))
  }

  /** One event the engine tried to process, with the log it read. */
  datatype Handled = Handled(env: Envelope, log: seq<Envelope>, choice: Choice, ok: bool)

  ghost function OutputOf(registry: Registry, h: Handled): StepOutput {
    StepOutputOf(registry, ResolveAggregateID(h.env), h.log, h.env, h.choice)
  }

  /** On these rows and in this weather, h is what comes of its event. */
  ghost predicate Explains(registry: Registry, rows: seq<Row>, h: Handled, w: Weather) {
    var id := ResolveAggregateID(h.env);
    && h.log == LogOf(rows, id)
    && (h.ok <==> StepLands(registry, rows, id, h.env, h.choice, w))
    && (!w.loadFault ==> RightChoice(registry, id, h.log, h.env, h.choice, w.autopause))
  }

  ghost function RowsThen(registry: Registry, rows: seq<Row>, h: Handled, w: Weather): seq<Row> {
    RowsAfter(registry, rows, ResolveAggregateID(h.env), h.env, h.choice, w)
  }

  /** Handling the events of the trace, one after the other from `tick` on,
      takes the store from rows to rows'. */
  ghost predicate Unfolds(registry: Registry, rows: seq<Row>, rows': seq<Row>, trace: seq<Handled>,
                          world: nat -> Weather, tick: nat)
    decreases |trace|
  {
    if trace == [] then rows' == rows
    else
      && Explains(registry, rows, trace[0], world(tick))
      && Unfolds(registry, RowsThen(registry, rows, trace[0], world(tick)), rows', trace[1..], world, tick + 1)
  }

  // ---------------------------------------------------------------------
  // What it does to the running set
  // ---------------------------------------------------------------------

  function CancelledID(env: Envelope): string {
    if env.correlationID == "" then env.aggregateID else env.correlationID
  }

  /** The running set after events are published: a start adds its workflow, a
      completion or a failure takes it out. */
  function PublishedRunning(running: set<string>, out: seq<Envelope>): set<string> {
    if out == [] then running
    else
      var before, e := PublishedRunning(running, out[..|out| - 1]), out[|out| - 1];
      if e.event.WorkflowStarted? then before + {e.correlationID}
      else if e.event.WorkflowCompleted? || e.event.WorkflowFailed? then before - {e.correlationID}
      else before
  }

  function AfterCancel(running: set<string>, env: Envelope): set<string> {
    if env.event.WorkflowCancelled? then running - {CancelledID(env)} else running
  }

  ghost function RunningStep(registry: Registry, running: set<string>, h: Handled): set<string> {
    PublishedRunning(AfterCancel(running, h.env), if h.ok then OutputOf(registry, h).published else [])
  }

  /** The running set after the events of the trace were handled. */
  ghost function RunningAfter(registry: Registry, running: set<string>, trace: seq<Handled>): set<string>
    decreases |trace|
  {
    if trace == [] then running
    else RunningAfter(registry, RunningStep(registry, running, trace[0]), trace[1..])
  }

  // ---------------------------------------------------------------------
  // What the watchdog does
  // ---------------------------------------------------------------------

  function StalledFailure(rows: seq<Row>, id: string): Envelope {
    Envelope(id, |LogOf(rows, id)| + 1, id, WorkflowFailed("", Stalled))
  }

  /** The log of the silent workflow still says that it runs. */
  predicate StillRuns(registry: Registry, rows: seq<Row>, id: string, w: Weather) {
    !w.loadFault && Load(registry, id, LogOf(rows, id)).status == Running
  }

  /** The slot is reclaimed: the workflow still runs and its failure can be
      appended to the log that says so. */
  predicate Reclaims(registry: Registry, rows: seq<Row>, id: string, w: Weather) {
    var now := AppendedAll(rows, w.others);
    && StillRuns(registry, rows, id, w) && !w.appendFault
    && LogOf(now, id) == LogOf(rows, id) && FreshIDs(now, Identify(w.ids, [StalledFailure(rows, id)]))
  }

  datatype Sweep = Sweep(rows: seq<Row>, running: set<string>, published: seq<Envelope>)

  function Reclaimed(registry: Registry, s: Sweep, id: string, w: Weather): Sweep {
    var now := AppendedAll(s.rows, w.others);
    var failed := [StalledFailure(s.rows, id)];
    if Reclaims(registry, s.rows, id, w) then
      Sweep(now + Identify(w.ids, failed), s.running - {id}, s.published + failed)
    else if StillRuns(registry, s.rows, id, w) then s.(rows := now)
    else s
  }

  /** The candidates of the sweep, one after the other from `tick` on. */
  function Swept(registry: Registry, s: Sweep, order: seq<string>, world: nat -> Weather, tick: nat): Sweep {
    if order == [] then s
    else
      var n := |order| - 1;
      Reclaimed(registry, Swept(registry, s, order[..n], world, tick), order[n], world(tick + n))
  }

  /** The order in which a map iteration meets the members of s. */
  ghost predicate OrderOf(order: seq<string>, s: set<string>) {
    && (forall i, j :: 0 <= i < j < |order| ==> order[i] != order[j])
    && (forall x :: x in order <==> x in s)
  }

  /** An iteration meets every member exactly once. */
  lemma {:induction false} OrderIsAll(order: seq<string>, s: set<string>)
    requires OrderOf(order, s)
    ensures multiset(order) == multiset(s)
  {
    if order == [] {
      assert forall x :: x in s ==> x in order;
    } else {
      var init, last := order[..|order| - 1], order[|order| - 1];
      assert order == init + [last] && last in order;
      assert forall x :: x in init <==> x in s - {last};
      OrderIsAll(init, s - {last});
      BagOfSet(s, last);
    }
  }

  lemma BagOfSet(s: set<string>, x: string)
    ensures x in s ==> multiset(s) == multiset(s - {x}) + multiset{x}
  {}

  // ---------------------------------------------------------------------
  // Engine
  // ---------------------------------------------------------------------

  class Engine {
    const store: SQLiteStore
    const throttle: WorkflowThrottle
    const registry: Registry
    var published: seq<Envelope>

    ghost predicate Valid()
      reads this, store, throttle
    {
      store.Valid() && throttle.Valid()
    }

    constructor (registry: Registry, maxConcurrent: int)
      ensures Valid() && fresh(store) && fresh(throttle)
      ensures this.registry == registry && throttle.maxConcurrent == maxConcurrent
      ensures store.rows == [] && throttle.queued == [] && throttle.running == {} && published == []
    {
      this.registry := registry;
      store := new SQLiteStore();
      throttle := new WorkflowThrottle(maxConcurrent);
      published := [];
    }

    /** Scans for the first WorkflowRequested and looks its definition up. */
    method FirstDefinition(events: seq<Envelope>) returns (def: Option<WorkflowDef>)
      ensures def == PreAttached(registry, events)
    {
      assert events[0..] == events;
      for i := 0 to |events|
        invariant PreAttached(registry, events[i..]) == PreAttached(registry, events)
      {
        assert events[i..][1..] == events[i + 1..];
        if events[i].event.WorkflowRequested? {
          return Lookup(registry, events[i].event.workflowID);
        }
      }
      def := None;
    }

    method LoadAggregate(id: string) returns (agg: WorkflowAggregate)
      requires store.Valid()
      ensures fresh(agg) && agg.State() == Load(registry, id, LogOf(store.rows, id))
    {
      hide GapFree, LogOf, ApplyEvent, PreAttached;
      agg := new WorkflowAggregate(id);
      var events := store.Load(id);
      var def := FirstDefinition(events);
      if def.Some? {
        agg.def, agg.maxIterations := def, def.value.maxIterations;
      }
      ghost var s0 := agg.State();
      for k := 0 to |events|
        invariant agg.State() == ApplyAll(s0, events[..k])
      {
        assert events[..k + 1][..k] == events[..k];
        agg.Apply(events[k]);
      }
      assert events[..|events|] == events;
      var again := Lookup(registry, agg.workflowID);
      if again.Some? {
        agg.def, agg.maxIterations := again, again.value.maxIterations;
      }
    }

    /** Records the tracking copy on the in-memory aggregate. */
    static method Track(agg: WorkflowAggregate, env: Envelope) returns (events: seq<Envelope>)
      modifies agg
      ensures events == TrackingEvents(old(agg.State()), env)
      ensures agg.State() == ApplyAll(old(agg.State()), events)
    {
      hide ApplyEvent;
      ghost var s := agg.State();
      TrackedState(s, env);
      if env.event.PersonaCompleted? && agg.id != env.aggregateID {
        var p := env.event.completedBy;
        if p !in agg.completed && !IsStale(agg.State(), p) {
          var track := Envelope(agg.id, agg.version + 1, env.correlationID, PersonaTracked(p));
          agg.Apply(track);
          return [track];
        }
      }
      if env.event.PersonaFailed? && agg.id != env.aggregateID {
        var f := env.event.failure;
        if agg.status == Running && IsRequired(agg.State(), f.persona) {
          var mirror := Envelope(agg.id, agg.version + 1, env.correlationID, PersonaFailedTracked(f));
          agg.Apply(mirror);
          return [mirror];
        }
      }
      events := [];
    }

    /** Load, track, decide and mirror, in memory. */
    method Compute(id: string, env: Envelope, autopause: bool)
      returns (stored: seq<Envelope>, newEvents: seq<Envelope>, baseVersion: int, ghost choice: Choice)
      requires store.Valid()
      ensures var out := StepOutputOf(registry, id, LogOf(store.rows, id), env, choice);
        stored == out.stored && newEvents == out.published
      ensures baseVersion == |LogOf(store.rows, id)|
      ensures RightChoice(registry, id, LogOf(store.rows, id), env, choice, autopause)
    {
      hide GapFree, DistinctIDs, Load, LogOf, ApplyAll, Decide, TrackingEvents, ValidPick;
      ghost var log := LogOf(store.rows, id);
      assert WellStamped(id, log) by { StoredWellStamped(store.rows, id); }
      LoadMeaning(registry, id, log, "", "", "", Fingerprint("", multiset{}));
      var agg := LoadAggregate(id);
      ghost var s := agg.State();
      baseVersion := agg.version;
      stored := Track(agg, env);
      ghost var s1 := agg.State();
      assert s1 == ApplyAll(s, TrackingEvents(s, env));
      if env.event.WorkflowResumed? {
        TrackedState(s, env);
      }
      newEvents, choice := agg.DecideNow(env, autopause);
      stored := stored + newEvents;
      if env.event.VerdictRendered? && id != env.aggregateID {
        var nextVersion := agg.version + |newEvents| + 1;
        stored := stored + [Envelope(agg.id, nextVersion, env.correlationID, VerdictTracked(env.event.verdict))];
      }
    }

    /** One load-track-decide-append cycle. If the step stores anything, the
        log it extends is the very log it decided on. */
    method TryProcessDecision(id: string, env: Envelope, w: Weather)
      returns (ok: bool, newEvents: seq<Envelope>, ghost choice: Choice)
      requires Valid()
      modifies store
      ensures Valid()
      ensures ok <==> StepLands(registry, old(store.rows), id, env, choice, w)
      ensures store.rows == RowsAfter(registry, old(store.rows), id, env, choice, w)
      ensures !w.loadFault ==> RightChoice(registry, id, LogOf(old(store.rows), id), env, choice, w.autopause)
      ensures var log := LogOf(old(store.rows), id);
        var out := StepOutputOf(registry, id, log, env, choice);
        && newEvents == (if ok then out.published else [])
        && (ok && out.stored != [] ==>
              LogOf(store.rows, id) == Next(registry, id, log, Process(env, choice)))
      ensures Grows(old(store.rows), store.rows)
    {
      hide GapFree, DistinctIDs, FreshIDs, StepOutputOf, LogOf, AppendedAll, RightChoice, StampRows, Identify;
      ghost var rows0 := store.rows;
      ghost var log := LogOf(rows0, id);
      choice := Choice(w.autopause, "");
      if w.loadFault {
        return false, [], choice;
      }
      var allEvents, decided, baseVersion;
      allEvents, decided, baseVersion, choice := Compute(id, env, w.autopause);
      if |allEvents| == 0 {
        return true, decided, choice;
      }
      store.Interfere(w.others);
      StoredWellStamped(rows0, id);
      VersionsAgree(registry, id, log, env, choice);
      var batch := Identify(w.ids, allEvents);
      AcceptedMeansUnchanged(rows0, w.others, Write(id, baseVersion, batch));
      WritersGrow(rows0, w.others, Write(id, baseVersion, batch));
      IdentifiedStamp(w.ids, allEvents, id, |log|);
      ghost var now := store.rows;
      AcceptsIff(now, Write(id, baseVersion, batch));
      var result := store.Append(id, baseVersion, batch, w.appendFault);
      if result != Stored {
        return false, [], choice;
      }
      return true, decided, choice;
    }

    /** Publishes the decided events, keeping the running set in step. */
    method PublishAll(newEvents: seq<Envelope>)
      modifies this`published, throttle`running
      ensures published == old(published) + newEvents
      ensures throttle.running == PublishedRunning(old(throttle.running), newEvents)
    {
      for i := 0 to |newEvents|
        invariant published == old(published) + newEvents[..i]
        invariant throttle.running == PublishedRunning(old(throttle.running), newEvents[..i])
      {
        assert newEvents[..i + 1][..i] == newEvents[..i];
        var ne := newEvents[i];
        if ne.event.WorkflowStarted? {
          throttle.AddRunning(ne.correlationID);
        }
        if ne.event.WorkflowCompleted? || ne.event.WorkflowFailed? {
          var _ := throttle.RemoveRunning(ne.correlationID);
        }
        published := published + [ne];
      }
      assert newEvents[..|newEvents|] == newEvents;
    }

    /** Processes one event: the step, and the publication of what it decided. */
    method HandleNow(env: Envelope, w: Weather) returns (ok: bool, ghost handled: Handled)
      requires Valid()
      modifies this`published, store, throttle`running
      ensures Valid() && Grows(old(store.rows), store.rows)
      ensures handled.env == env && handled.ok == ok && Explains(registry, old(store.rows), handled, w)
      ensures store.rows == RowsThen(registry, old(store.rows), handled, w)
      ensures var out := if ok then OutputOf(registry, handled).published else [];
        && published == old(published) + out
        && throttle.running == PublishedRunning(old(throttle.running), out)
      ensures Recorded(registry, handled, store.rows)
    {
      hide GapFree, DistinctIDs, StepLands, RowsAfter, StepOutputOf, LogOf, RightChoice, Next, PublishedRunning, Grows;
      var id := ResolveAggregateID(env);
      ghost var log := LogOf(store.rows, id);
      var processed, newEvents;
      ghost var choice;
      processed, newEvents, choice := TryProcessDecision(id, env, w);
      handled := Handled(env, log, choice, processed);
      PublishAll(newEvents);
      return processed, handled;
    }

    /** Processes one event and drains the queue into whatever slots it freed.
        A request that arrives while no slot is free is parked behind the ones
        already waiting, and nothing else happens. Otherwise the trace starts
        with the event itself and goes on with the parked requests that left
        the queue, in their order. The store, the running set and what was
        published are exactly what handling the trace makes of them; nothing
        raises the running set beyond its limit. */
    method ProcessDecision(env: Envelope, world: nat -> Weather, tick: nat)
      returns (ok: bool, ghost trace: seq<Handled>, next: nat)
      requires Valid() && throttle.maxConcurrent > 0
      modifies this`published, store, throttle
      ensures Valid() && Grows(old(store.rows), store.rows)
      ensures |throttle.running| <= Max(old(|throttle.running|), throttle.maxConcurrent)
      ensures ok && throttle.queued != [] ==> |throttle.running| >= throttle.maxConcurrent
      ensures Unfolds(registry, old(store.rows), store.rows, trace, world, tick) && next == tick + |trace|
      ensures throttle.running == RunningAfter(registry, old(throttle.running), trace)
      ensures published == old(published) + Outputs(registry, trace)
      ensures AllRecorded(registry, trace, store.rows)
      ensures env.event.WorkflowRequested? && old(|throttle.running|) >= throttle.maxConcurrent ==>
        ok && trace == [] && throttle.queued == old(throttle.queued) + [env]
      ensures !env.event.WorkflowRequested? || old(|throttle.running|) < throttle.maxConcurrent ==>
        && trace != [] && trace[0].env == env && trace[0].ok == ok
        && Envs(trace[1..]) + throttle.queued
           == if env.event.WorkflowCancelled? then DropRequest(old(throttle.queued), CancelledID(env))
              else old(throttle.queued)
      ensures !ok ==> |trace| == 1
      decreases |throttle.queued|, 1
    {
      hide GapFree, DistinctIDs, LogOf, Next, Recorded, Outputs, OutputOf, Envs, Grows, DropRequest, Unfolds, Explains,
        RowsThen, RunningAfter, PublishedRunning;
      trace, next := [], tick;
      NothingHandled(registry, store.rows, throttle.running, world, tick);
      if env.event.WorkflowRequested? {
        var full := throttle.ShouldQueue();
        if full {
          throttle.Enqueue(env);
          return true, [], tick;
        }
      }
      ghost var rows0, running0 := store.rows, throttle.running;
      if env.event.WorkflowCancelled? {
        var _ := throttle.RemoveRunning(CancelledID(env));
        var _ := throttle.RemoveQueued(CancelledID(env));
      }
      ghost var handled;
      ok, handled := HandleNow(env, world(tick));
      trace, next := [handled], tick + 1;
      OneHandled(registry, rows0, running0, handled, world, tick);
      RunningStepBounded(registry, running0, handled, throttle.maxConcurrent);
      assert trace[1..] == [];
      if !ok {
        return;
      }
      ghost var more;
      ghost var rows1, running1 := store.rows, throttle.running;
      more, next := DrainThrottleQueue(world, next);
      GrowsTransitive(rows0, rows1, store.rows);
      RecordedGrows(registry, handled, rows1, store.rows);
      OutputsConcat(registry, trace, more);
      UnfoldsConcat(registry, rows0, rows1, store.rows, trace, more, world, tick);
      RunningConcat(registry, running0, trace, more);
      assert (trace + more)[1..] == more;
      return true, trace + more, next;
    }

    /** Starts parked requests, oldest first, until the throttle is full or
        none is left. The mutual recursion ends because every round takes one
        request off the queue and no round adds one. */
    method DrainThrottleQueue(world: nat -> Weather, tick: nat) returns (ghost trace: seq<Handled>, next: nat)
      requires Valid() && throttle.maxConcurrent > 0
      modifies this`published, store, throttle
      ensures Valid() && Grows(old(store.rows), store.rows)
      ensures |throttle.running| <= Max(old(|throttle.running|), throttle.maxConcurrent)
      ensures throttle.queued != [] ==> |throttle.running| >= throttle.maxConcurrent
      ensures Unfolds(registry, old(store.rows), store.rows, trace, world, tick) && next == tick + |trace|
      ensures throttle.running == RunningAfter(registry, old(throttle.running), trace)
      ensures published == old(published) + Outputs(registry, trace)
      ensures AllRecorded(registry, trace, store.rows)
      ensures old(throttle.queued) == Envs(trace) + throttle.queued
      decreases |throttle.queued|, 0
    {
      hide GapFree, DistinctIDs, LogOf, Next, Outputs, Envs, Recorded, Grows, Unfolds, RunningAfter;
      trace, next := [], tick;
      NothingHandled(registry, store.rows, throttle.running, world, tick);
      while true
        invariant Valid() && Grows(old(store.rows), store.rows)
        invariant old(throttle.queued) == Envs(trace) + throttle.queued
        invariant |throttle.running| <= Max(old(|throttle.running|), throttle.maxConcurrent)
        invariant Unfolds(registry, old(store.rows), store.rows, trace, world, tick) && next == tick + |trace|
        invariant throttle.running == RunningAfter(registry, old(throttle.running), trace)
        invariant published == old(published) + Outputs(registry, trace)
        invariant AllRecorded(registry, trace, store.rows)
        decreases |throttle.queued|
      {
        var full := throttle.ShouldQueue();
        if full {
          return;
        }
        var parked := throttle.Dequeue();
        if parked.None? {
          return;
        }
        ghost var rows1, running1 := store.rows, throttle.running;
        ghost var more;
        var ok;
        ok, more, next := ProcessDecision(parked.value, world, next);
        forall h | h in trace ensures Recorded(registry, h, store.rows) {
          RecordedGrows(registry, h, rows1, store.rows);
        }
        OutputsConcat(registry, trace, more);
        GrowsTransitive(old(store.rows), rows1, store.rows);
        UnfoldsConcat(registry, old(store.rows), rows1, store.rows, trace, more, world, tick);
        RunningConcat(registry, old(throttle.running), trace, more);
        assert more == [more[0]] + more[1..];
        EnvsConcat([more[0]], more[1..]);
        EnvsConcat(trace, more);
        EnvsOne(more[0]);
        trace := trace + more;
      }
    }

    /** Reclaims the slot of a workflow that went silent, if its log still
        says that it runs and the failure can be recorded. */
    method ReclaimStalledSlot(id: string, w: Weather)
      requires Valid()
      modifies this`published, store, throttle
      ensures Valid() && throttle.queued == old(throttle.queued) && Grows(old(store.rows), store.rows)
      ensures Sweep(store.rows, throttle.running, published)
              == Reclaimed(registry, Sweep(old(store.rows), old(throttle.running), old(published)), id, w)
    {
      hide GapFree, DistinctIDs, FreshIDs, LogOf, AppendedAll, Load, Identify, StampRows;
      ghost var rows0 := store.rows;
      GrowsReflexive(rows0);
      if w.loadFault {
        return;
      }
      var agg := LoadAggregate(id);
      if agg.status != Running {
        return;
      }
      StoredWellStamped(rows0, id);
      LoadMeaning(registry, id, LogOf(rows0, id), "", "", "", Fingerprint("", multiset{}));
      var failed := Envelope(id, agg.version + 1, id, WorkflowFailed("", Stalled));
      var batch := Identify(w.ids, [failed]);
      store.Interfere(w.others);
      AcceptedMeansUnchanged(rows0, w.others, Write(id, agg.version, batch));
      WritersGrow(rows0, w.others, Write(id, agg.version, batch));
      AcceptsIff(store.rows, Write(id, agg.version, batch));
      assert Stamp(id, |LogOf(rows0, id)|, [failed]) == [failed];
      IdentifiedStamp(w.ids, [failed], id, |LogOf(rows0, id)|);
      var result := store.Append(id, agg.version, batch, w.appendFault);
      if result != Stored {
        return;
      }
      throttle.MarkStalled(id);
      published := published + [failed];
    }

    /** The loop over the candidates, in the order the iteration meets them. */
    method SweepCandidates(candidates: set<string>, world: nat -> Weather, tick: nat)
      returns (ghost order: seq<string>, next: nat)
      requires Valid()
      modifies this`published, store, throttle
      ensures Valid() && throttle.queued == old(throttle.queued)
      ensures OrderOf(order, candidates) && next == tick + |order|
      ensures Sweep(store.rows, throttle.running, published)
              == Swept(registry, Sweep(old(store.rows), old(throttle.running), old(published)), order, world, tick)
    {
      hide GapFree, DistinctIDs, LogOf, Reclaimed, Grows, Swept, OrderOf, Split;
      order, next := [], tick;
      var todo := candidates;
      ghost var before, done: set<string> := Sweep(store.rows, throttle.running, published), {};
      NothingSwept(registry, before, world, tick);
      AllAhead(candidates);
      while todo != {}
        invariant Valid() && throttle.queued == old(throttle.queued)
        invariant Split(done, todo, candidates)
        invariant OrderOf(order, done) && next == tick + |order|
        invariant Sweep(store.rows, throttle.running, published) == Swept(registry, before, order, world, tick)
        decreases |todo|
      {
        var id :| id in todo;
        MovedOver(done, todo, candidates, id);
        todo := todo - {id};
        ReclaimStalledSlot(id, world(next));
        OrderSnoc(order, done, id);
        SweptSnoc(registry, before, order, id, world, tick);
        order, done := order + [id], done + {id};
        next := next + 1;
      }
      AllDone(done, candidates);
    }

    /** The watchdog. `silent` is the set of workflows without recent activity,
        `order` the order in which the iteration meets those that hold a slot. */
    method RunWatchdogSweep(silent: set<string>, world: nat -> Weather, tick: nat)
      returns (ghost order: seq<string>, ghost trace: seq<Handled>, next: nat)
      requires Valid() && throttle.maxConcurrent > 0
      modifies this`published, store, throttle
      ensures Valid()
      ensures OrderOf(order, silent * old(throttle.running))
      ensures var swept := Swept(registry, Sweep(old(store.rows), old(throttle.running), old(published)),
                                 order, world, tick);
        && |swept.running| <= old(|throttle.running|)
        && Unfolds(registry, swept.rows, store.rows, trace, world, tick + |order|)
        && throttle.running == RunningAfter(registry, swept.running, trace)
        && published == swept.published + Outputs(registry, trace)
      ensures next == tick + |order| + |trace|
      ensures |throttle.running| <= Max(old(|throttle.running|), throttle.maxConcurrent)
      ensures old(throttle.queued) == Envs(trace) + throttle.queued
      ensures order == [] ==> trace == []
      ensures order != [] || (old(throttle.queued) != [] ==> old(|throttle.running|) >= throttle.maxConcurrent) ==>
        throttle.queued != [] ==> |throttle.running| >= throttle.maxConcurrent
    {
      hide GapFree, DistinctIDs, LogOf, Load, Unfolds, Outputs, Envs, RunningAfter, Swept, Grows;
      order, trace, next := [], [], tick;
      var candidates := silent * throttle.running;
      ghost var before := Sweep(store.rows, throttle.running, published);
      if candidates == {} {
        NothingHandled(registry, store.rows, throttle.running, world, tick);
        NothingSwept(registry, before, world, tick);
        return;
      }
      order, next := SweepCandidates(candidates, world, tick);
      SweepFrees(registry, before, order, world, tick);
      SubsetSize(throttle.running, before.running);
      trace, next := DrainThrottleQueue(world, next);
    }
  }

  function Envs(trace: seq<Handled>): seq<Envelope> {
    seq(|trace|, i requires 0 <= i < |trace| => trace[i].env)
  }

  /** What the handled events published, in order. */
  ghost function Outputs(registry: Registry, trace: seq<Handled>): seq<Envelope> {
    if trace == [] then []
    else (if trace[0].ok then OutputOf(registry, trace[0]).published else []) + Outputs(registry, trace[1..])
  }

  /** A step that succeeded and had something to store is in the log. */
  ghost predicate Recorded(registry: Registry, h: Handled, rows: seq<Row>) {
    var id := ResolveAggregateID(h.env);
    h.ok && OutputOf(registry, h).stored != [] ==>
      Next(registry, id, h.log, Process(h.env, h.choice)) <= LogOf(rows, id)
  }

  ghost predicate AllRecorded(registry: Registry, trace: seq<Handled>, rows: seq<Row>) {
    forall h :: h in trace ==> Recorded(registry, h, rows)
  }

  /** No log of any aggregate lost or changed an event. */
  ghost predicate Grows(rows: seq<Row>, rows': seq<Row>) {
    forall id :: LogOf(rows, id) <= LogOf(rows', id)
  }

  lemma WritersGrow(rows: seq<Row>, others: seq<Write>, w: Write)
    requires GapFree(rows) && DistinctIDs(rows)
    ensures Grows(rows, AppendedAll(rows, others)) && Grows(rows, Appended(AppendedAll(rows, others), w))
  {
    hide GapFree, DistinctIDs, Accepts, LogOf, AppendedAll;
    forall id
      ensures LogOf(rows, id) <= LogOf(AppendedAll(rows, others), id)
      ensures LogOf(rows, id) <= LogOf(Appended(AppendedAll(rows, others), w), id)
    {
      WritersKeepGapFree(rows, others, id);
      LogOfAppended(AppendedAll(rows, others), w, id);
    }
  }

  lemma RecordedGrows(registry: Registry, h: Handled, rows: seq<Row>, rows': seq<Row>)
    requires Recorded(registry, h, rows) && Grows(rows, rows')
    ensures Recorded(registry, h, rows')
  {
    hide LogOf, Next, StepOutputOf;
  }

  lemma {:induction false} OutputsConcat(registry: Registry, a: seq<Handled>, b: seq<Handled>)
    ensures Outputs(registry, a + b) == Outputs(registry, a) + Outputs(registry, b)
  {
    hide OutputOf;
    if a == [] {
      assert a + b == b;
    } else {
      assert (a + b)[1..] == a[1..] + b;
      OutputsConcat(registry, a[1..], b);
    }
  }

  lemma EnvsConcat(a: seq<Handled>, b: seq<Handled>)
    ensures Envs(a + b) == Envs(a) + Envs(b)
  {}

  lemma EnvsOne(h: Handled)
    ensures Envs([h]) == [h.env]
  {}

  lemma GrowsTransitive(a: seq<Row>, b: seq<Row>, c: seq<Row>)
    requires Grows(a, b) && Grows(b, c)
    ensures Grows(a, c)
  {
    hide LogOf;
  }

  lemma StoredWellStamped(rows: seq<Row>, id: string)
    requires GapFree(rows)
    ensures WellStamped(id, LogOf(rows, id))
  {}

  /** The engine starts a workflow only when one is requested. */
  lemma StartsOnlyOnRequest(registry: Registry, id: string, log: seq<Envelope>, env: Envelope, c: Choice)
    ensures var out := StepOutputOf(registry, id, log, env, c).published;
      |out| <= 1 && forall i :: 0 <= i < |out| && out[i].event.WorkflowStarted? ==> env.event.WorkflowRequested?
  {
    hide Load, ApplyAll, IsCategoryReviewer, FingerprintOf, VerdictKey;
    var s := Load(registry, id, log);
    DecideShape(ApplyAll(s, TrackingEvents(s, env)), env, c);
  }

  lemma GrowsReflexive(rows: seq<Row>)
    ensures Grows(rows, rows)
  {}

  lemma IdentifiedStamp(ids: nat -> EventID, events: seq<Envelope>, id: string, base: nat)
    ensures Stamp(id, base, events) == events ==>
      StampRows(id, base, Identify(ids, events)) == Identify(ids, events)
  {
    if Stamp(id, base, events) == events {
      forall i | 0 <= i < |events|
        ensures StampRows(id, base, Identify(ids, events))[i] == Identify(ids, events)[i]
      {
        assert Stamp(id, base, events)[i] == events[i];
      }
    }
  }

  // ---------------------------------------------------------------------
  // Traces
  // ---------------------------------------------------------------------

  lemma NothingHandled(registry: Registry, rows: seq<Row>, running: set<string>, world: nat -> Weather, tick: nat)
    ensures Envs([]) == [] && Outputs(registry, []) == [] && Grows(rows, rows)
    ensures Unfolds(registry, rows, rows, [], world, tick) && RunningAfter(registry, running, []) == running
  {}

  lemma OneHandled(registry: Registry, rows: seq<Row>, running: set<string>, h: Handled, world: nat -> Weather,
                   tick: nat)
    ensures Outputs(registry, [h]) == if h.ok then OutputOf(registry, h).published else []
    ensures RunningAfter(registry, running, [h]) == RunningStep(registry, running, h)
    ensures Explains(registry, rows, h, world(tick)) ==>
      Unfolds(registry, rows, RowsThen(registry, rows, h, world(tick)), [h], world, tick)
    ensures Envs([h][1..]) == []
  {
    hide Explains, RowsThen, RunningStep, OutputOf;
    assert [h][1..] == [];
  }

  lemma {:induction false} UnfoldsConcat(registry: Registry, r0: seq<Row>, r1: seq<Row>, r2: seq<Row>,
                                         a: seq<Handled>, b: seq<Handled>, world: nat -> Weather, tick: nat)
    requires Unfolds(registry, r0, r1, a, world, tick) && Unfolds(registry, r1, r2, b, world, tick + |a|)
    ensures Unfolds(registry, r0, r2, a + b, world, tick)
    decreases |a|
  {
    hide Explains, RowsThen;
    if a == [] {
      assert a + b == b;
    } else {
      assert (a + b)[1..] == a[1..] + b;
      UnfoldsConcat(registry, RowsThen(registry, r0, a[0], world(tick)), r1, r2, a[1..], b, world, tick + 1);
    }
  }

  lemma {:induction false} RunningConcat(registry: Registry, running: set<string>, a: seq<Handled>, b: seq<Handled>)
    ensures RunningAfter(registry, running, a + b)
            == RunningAfter(registry, RunningAfter(registry, running, a), b)
    decreases |a|
  {
    hide RunningStep;
    if a == [] {
      assert a + b == b;
    } else {
      assert (a + b)[1..] == a[1..] + b;
      RunningConcat(registry, RunningStep(registry, running, a[0]), a[1..], b);
    }
  }

  /** Handling one event keeps the running set within its limit: only a
      request starts a workflow, and it is handled only while a slot is free. */
  lemma RunningStepBounded(registry: Registry, running: set<string>, h: Handled, max: int)
    requires h.env.event.WorkflowRequested? ==> |running| < max
    ensures |RunningStep(registry, running, h)| <= Max(|running|, max)
  {
    hide OutputOf, StepOutputOf;
    var out := if h.ok then OutputOf(registry, h).published else [];
    var r0 := AfterCancel(running, h.env);
    SubsetSize(r0, running);
    assert |out| <= 1 && forall e :: e in out && e.event.WorkflowStarted? ==> h.env.event.WorkflowRequested? by {
      OutputStarts(registry, h);
    }
    if out != [] {
      assert out == [out[0]] && out[0] in out;
      PublishedOne(r0, out[0]);
      if !out[0].event.WorkflowStarted? {
        SubsetSize(PublishedRunning(r0, out), r0);
      }
    }
  }

  lemma PublishedOne(running: set<string>, e: Envelope)
    ensures var after := PublishedRunning(running, [e]);
      if e.event.WorkflowStarted? then after == running + {e.correlationID} else after <= running
  {
    assert [e][..0] == [];
  }

  lemma OutputStarts(registry: Registry, h: Handled)
    ensures var out := OutputOf(registry, h).published;
      |out| <= 1 && forall e :: e in out && e.event.WorkflowStarted? ==> h.env.event.WorkflowRequested?
  {
    StartsOnlyOnRequest(registry, ResolveAggregateID(h.env), h.log, h.env, h.choice);
  }

  lemma NothingSwept(registry: Registry, s: Sweep, world: nat -> Weather, tick: nat)
    ensures Swept(registry, s, [], world, tick) == s
    ensures OrderOf([], {})
  {}

  lemma SweptSnoc(registry: Registry, s: Sweep, order: seq<string>, id: string, world: nat -> Weather, tick: nat)
    ensures Swept(registry, s, order + [id], world, tick)
            == Reclaimed(registry, Swept(registry, s, order, world, tick), id, world(tick + |order|))
  {
    hide Reclaimed;
    assert (order + [id])[..|order|] == order;
  }

  lemma {:induction false} SweepFrees(registry: Registry, s: Sweep, order: seq<string>, world: nat -> Weather,
                                      tick: nat)
    ensures Swept(registry, s, order, world, tick).running <= s.running
  {
    if order != [] {
      SweepFrees(registry, s, order[..|order| - 1], world, tick);
    }
  }

  predicate Split(done: set<string>, todo: set<string>, all: set<string>) {
    done + todo == all && done !! todo
  }

  lemma AllAhead(all: set<string>)
    ensures Split({}, all, all)
  {}

  lemma AllDone(done: set<string>, all: set<string>)
    requires Split(done, {}, all)
    ensures done == all
  {}

  lemma MovedOver(done: set<string>, todo: set<string>, all: set<string>, x: string)
    requires Split(done, todo, all) && x in todo
    ensures Split(done + {x}, todo - {x}, all) && x !in done
  {}

  lemma OrderSnoc(order: seq<string>, s: set<string>, x: string)
    requires OrderOf(order, s) && x !in s
    ensures OrderOf(order + [x], s + {x})
  {
    forall i | 0 <= i < |order| ensures order[i] != x {
      assert order[i] in order;
    }
  }
}
