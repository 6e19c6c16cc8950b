/** Which workflows hold a slot of the throttle, in terms of the events that
    were published and the cancellations that arrived. */
module SlotSafety {
  import opened Events
  import opened Aggregate
  import opened Replay
  import opened EngineStep
  import opened EventStore
  import opened Engine

  // ---------------------------------------------------------------------
  // Published events
  // ---------------------------------------------------------------------

  predicate TakesSlot(e: Envelope, x: string) {
    e.event.WorkflowStarted? && e.correlationID == x
  }

  /** The workflow is over: completed, failed, or cancelled by an operator. */
  predicate FreesSlot(e: Envelope, x: string) {
    || ((e.event.WorkflowCompleted? || e.event.WorkflowFailed?) && e.correlationID == x)
    || (e.event.WorkflowCancelled? && (if e.correlationID != "" then e.correlationID else e.aggregateID) == x)
  }

  ghost predicate TookLastAt(events: seq<Envelope>, x: string, i: int) {
    && 0 <= i < |events| && TakesSlot(events[i], x)
    && forall j :: i < j < |events| ==> !FreesSlot(events[j], x)
  }

  /** After the events x holds a slot: it took one and nothing freed it since,
      or it held one before and nothing freed it at all. */
  ghost predicate HoldsSlot(events: seq<Envelope>, x: string, before: bool) {
    || (exists i :: TookLastAt(events, x, i))
    || (before && forall i :: 0 <= i < |events| ==> !FreesSlot(events[i], x))
  }

  lemma HoldsSnoc(events: seq<Envelope>, e: Envelope, x: string, before: bool)
    ensures HoldsSlot(events + [e], x, before) <==>
      if TakesSlot(e, x) then true else if FreesSlot(e, x) then false else HoldsSlot(events, x, before)
  {
    var all := events + [e];
    assert all[|events|] == e;
    if TakesSlot(e, x) {
      assert TookLastAt(all, x, |events|);
    } else {
      forall i ensures TookLastAt(all, x, i) <==> TookLastAt(events, x, i) && !FreesSlot(e, x) {
        assert forall j :: 0 <= j < |events| ==> all[j] == events[j];
      }
      assert forall j :: 0 <= j < |events| ==> all[j] == events[j];
    }
  }

  lemma {:induction false} HoldsConcat(a: seq<Envelope>, b: seq<Envelope>, x: string, before: bool)
    ensures HoldsSlot(a + b, x, before) <==> HoldsSlot(b, x, HoldsSlot(a, x, before))
  {
    hide HoldsSlot;
    if b == [] {
      assert a + b == a;
      HoldsNothing(x, HoldsSlot(a, x, before));
    } else {
      var init, e := b[..|b| - 1], b[|b| - 1];
      HoldsConcat(a, init, x, before);
      HoldsSnoc(a + init, e, x, before);
      HoldsSnoc(init, e, x, HoldsSlot(a, x, before));
      assert a + b == a + init + [e] && b == init + [e];
    }
  }

  lemma HoldsNothing(x: string, before: bool)
    ensures HoldsSlot([], x, before) <==> before
  {}

  /** Publishing keeps the running set exact: a workflow is in it exactly when
      the last start, completion or failure of its correlation is a start, or
      there is none and it was in it before. */
  lemma {:induction false} PublishedMeaning(running: set<string>, out: seq<Envelope>, x: string)
    requires forall e :: e in out ==> !e.event.WorkflowCancelled?
    ensures x in PublishedRunning(running, out) <==> HoldsSlot(out, x, x in running)
  {
    hide HoldsSlot;
    if out == [] {
      HoldsNothing(x, x in running);
    } else {
      var init, e := out[..|out| - 1], out[|out| - 1];
      PublishedMeaning(running, init, x);
      HoldsSnoc(init, e, x, x in running);
      assert out == init + [e];
    }
  }

  // ---------------------------------------------------------------------
  // Traces
  // ---------------------------------------------------------------------

  /** The cancellations that arrived and the events that were published, in
      the order of the trace. */
  ghost function SlotEvents(registry: Registry, trace: seq<Handled>): seq<Envelope>
    decreases |trace|
  {
    if trace == [] then []
    else
      var h := trace[0];
      (if h.env.event.WorkflowCancelled? then [h.env] else [])
      + (if h.ok then OutputOf(registry, h).published else [])
      + SlotEvents(registry, trace[1..])
  }

  lemma NeverCancels(registry: Registry, h: Handled)
    ensures forall e :: e in OutputOf(registry, h).published ==> !e.event.WorkflowCancelled?
  {
    hide Load, ApplyAll, TrackingEvents, IsCategoryReviewer, FingerprintOf, VerdictKey;
  }

  lemma CancelMeaning(running: set<string>, env: Envelope, x: string)
    ensures var cancelled := if env.event.WorkflowCancelled? then [env] else [];
      x in AfterCancel(running, env) <==> HoldsSlot(cancelled, x, x in running)
  {
    if env.event.WorkflowCancelled? {
      HoldsSnoc([], env, x, x in running);
      assert [] + [env] == [env];
    }
  }

  /** A workflow is in the running set after a trace exactly when the last of
      its starts, completions, failures and cancellations is a start, or there
      is none and it was there before. */
  lemma {:induction false} RunningMeaning(registry: Registry, running: set<string>, trace: seq<Handled>, x: string)
    ensures x in RunningAfter(registry, running, trace) <==>
      HoldsSlot(SlotEvents(registry, trace), x, x in running)
    decreases |trace|
  {
    hide HoldsSlot, PublishedRunning, OutputOf, AfterCancel;
    if trace == [] {
      HoldsNothing(x, x in running);
    } else {
      var h := trace[0];
      var cancelled := if h.env.event.WorkflowCancelled? then [h.env] else [];
      var out := if h.ok then OutputOf(registry, h).published else [];
      var rest := SlotEvents(registry, trace[1..]);
      NeverCancels(registry, h);
      CancelMeaning(running, h.env, x);
      PublishedMeaning(AfterCancel(running, h.env), out, x);
      HoldsConcat(cancelled, out, x, x in running);
      HoldsConcat(cancelled + out, rest, x, x in running);
      RunningMeaning(registry, RunningStep(registry, running, h), trace[1..], x);
    }
  }

  // ---------------------------------------------------------------------
  // The watchdog
  // ---------------------------------------------------------------------

  /** When a slot is reclaimed, with the status read off the log. */
  lemma ReclaimsIff(registry: Registry, rows: seq<Row>, id: string, w: Weather)
    ensures var now := AppendedAll(rows, w.others);
      var failed := Envelope(id, |LogOf(rows, id)| + 1, id, WorkflowFailed("", Stalled));
      Reclaims(registry, rows, id, w) <==>
        && !w.loadFault && !w.appendFault && LastStatus(LogOf(rows, id), Running)
        && LogOf(now, id) == LogOf(rows, id) && FreshIDs(now, Identify(w.ids, [failed]))
  {
    hide Load, LastStatus, LogOf, FreshIDs, AppendedAll;
    LoadStatus(registry, id, LogOf(rows, id), Running);
  }

  predicate IsStalledFailure(e: Envelope) {
    e.event == WorkflowFailed("", Stalled) && e.aggregateID == e.correlationID
  }

  predicate InRows(rows: seq<Row>, e: Envelope) {
    exists k :: 0 <= k < |rows| && rows[k].env == e
  }

  /** A sweep frees a slot exactly when it publishes that its workflow failed
      for being stalled; it publishes nothing else, one failure at most for
      each candidate, and every one of them is stored. */
  lemma {:induction false} SweepMeaning(registry: Registry, s: Sweep, order: seq<string>, world: nat -> Weather,
                                        tick: nat)
    returns (failures: seq<Envelope>)
    ensures var after := Swept(registry, s, order, world, tick);
      && after.published == s.published + failures && s.rows <= after.rows
      && (forall e :: e in failures ==>
            IsStalledFailure(e) && e.correlationID in order && InRows(after.rows, e))
      && |failures| <= |order|
      && forall x :: x in after.running <==> x in s.running && forall e :: e in failures ==> e.correlationID != x
  {
    hide Reclaims, StillRuns;
    failures := [];
    if order != [] {
      var n := |order| - 1;
      var before := Swept(registry, s, order[..n], world, tick);
      var init := SweepMeaning(registry, s, order[..n], world, tick);
      var id, w := order[n], world(tick + n);
      RowsGrow(before.rows, w.others);
      var after := Reclaimed(registry, before, id, w);
      failures := init;
      if Reclaims(registry, before.rows, id, w) {
        var failed := StalledFailure(before.rows, id);
        failures := init + [failed];
        ReclaimedRow(before.rows, id, w);
      }
      forall e | e in init ensures InRows(after.rows, e) {
        StillInRows(before.rows, after.rows, e);
      }
      assert forall x :: x in order[..n] ==> x in order;
      assert forall e :: e in failures <==> e in init || (Reclaims(registry, before.rows, id, w)
                                                          && e == StalledFailure(before.rows, id));
    }
  }

  lemma StillInRows(rows: seq<Row>, rows': seq<Row>, e: Envelope)
    requires InRows(rows, e) && rows <= rows'
    ensures InRows(rows', e)
  {
    var k :| 0 <= k < |rows| && rows[k].env == e;
    assert rows'[k] == rows[k];
  }

  lemma ReclaimedRow(rows: seq<Row>, id: string, w: Weather)
    ensures var failed := StalledFailure(rows, id);
      InRows(AppendedAll(rows, w.others) + Identify(w.ids, [failed]), failed)
  {
    hide AppendedAll, LogOf;
    var now, failed := AppendedAll(rows, w.others), StalledFailure(rows, id);
    assert (now + Identify(w.ids, [failed]))[|now|].env == failed;
  }

  lemma {:induction false} RowsGrow(rows: seq<Row>, ws: seq<Write>)
    ensures rows <= AppendedAll(rows, ws)
  {
    hide Accepts, LogOf;
    if ws != [] {
      RowsGrow(rows, ws[..|ws| - 1]);
    }
  }
}
