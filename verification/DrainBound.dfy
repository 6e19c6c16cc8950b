/** Exactly when a pause bounds the executions of a key. */
module DrainBound {
  import opened DispatchQueue
  import D = Drain
  import opened DrainSafety

  // ---------------------------------------------------------------------
  // Continuations
  // ---------------------------------------------------------------------

  ghost predicate Runs(s: D.State, calls: seq<D.Call>)
    decreases |calls|
  {
    calls == [] || (D.Enabled(s, calls[0]) && Runs(D.Next(s, calls[0]), calls[1..]))
  }

  ghost function After(s: D.State, calls: seq<D.Call>): D.State
    requires Runs(s, calls)
    decreases |calls|
  {
    if calls == [] then s else After(D.Next(s, calls[0]), calls[1..])
  }

  /** The call makes its enqueuer a worker of the loop for approved hints. */
  predicate StartsHintWorker(s: D.State, call: D.Call, k: D.Key) {
    call.Enqueue? && call.loop == D.HintApproved && call.entry.key == k && k !in s.draining
  }

  /** A continuation that neither resumes the correlation of k nor starts a
      worker of the hint loop on k. */
  ghost predicate Continues(s: D.State, calls: seq<D.Call>, k: D.Key)
    decreases |calls|
  {
    calls == []
    || (D.Enabled(s, calls[0]) && calls[0] != D.Resume(k.corr) && !StartsHintWorker(s, calls[0], k)
        && Continues(D.Next(s, calls[0]), calls[1..], k))
  }

  lemma {:induction false} ContinuationRuns(s: D.State, calls: seq<D.Call>, k: D.Key)
    requires Continues(s, calls, k)
    ensures Runs(s, calls)
    decreases |calls|
  {
    hide D.Next, D.Enabled;
    if calls != [] {
      ContinuationRuns(D.Next(s, calls[0]), calls[1..], k);
    }
  }

  lemma {:induction false} ContinueFurther(s: D.State, a: seq<D.Call>, b: seq<D.Call>, k: D.Key)
    requires Continues(s, a, k) && Runs(s, a) && Continues(After(s, a), b, k)
    ensures Continues(s, a + b, k) && Runs(s, a + b) && Runs(After(s, a), b)
    ensures After(s, a + b) == After(After(s, a), b)
    decreases |a|
  {
    hide D.Next, D.Enabled, StartsHintWorker;
    ContinuationRuns(After(s, a), b, k);
    if a == [] {
      assert a + b == b;
    } else {
      ContinueFurther(D.Next(s, a[0]), a[1..], b, k);
      assert (a + b)[1..] == a[1..] + b;
    }
  }

  // ---------------------------------------------------------------------
  // Without a worker of the hint loop: bounded
  // ---------------------------------------------------------------------

  lemma StepKeepsAware(s: D.State, call: D.Call, k: D.Key)
    requires Inv(s) && D.Enabled(s, call) && PauseAware(s, k) && !StartsHintWorker(s, call, k)
    ensures PauseAware(D.Next(s, call), k)
  {
    hide Conserved, Filed, Inserted;
    var s' := D.Next(s, call);
    forall t | WorksOn(s', t, k) ensures s'.workers[t].loop == D.Dispatching || AboutToEnd(s', t) {
      if call.Enqueue? && call.worker == t && t !in s.workers {
        assert call.entry.key == k;
      } else {
        assert WorksOn(s, t, k);
      }
    }
  }

  lemma {:induction false} AwareIsBounded(s: D.State, calls: seq<D.Call>, k: D.Key)
    requires Inv(s) && k.corr in s.pauses.paused && PauseAware(s, k) && Continues(s, calls, k) && Runs(s, calls)
    ensures Begun(After(s, calls).begun, k) <= Begun(s.begun, k) + Slack(s, k)
    decreases |calls|
  {
    hide D.Next, D.Enabled, Slack, Begun, PauseAware, Inv;
    if calls != [] {
      var s' := D.Next(s, calls[0]);
      StepKeepsInv(s, calls[0]);
      StepKeepsAware(s, calls[0], k);
      PausedStep(s, calls[0], k);
      AwareIsBounded(s', calls[1..], k);
    }
  }

  // ---------------------------------------------------------------------
  // With one: unbounded
  // ---------------------------------------------------------------------

  /** A worker of the hint loop about to take the free lock of its queue. */
  predicate HintIdle(s: D.State, t: nat, k: D.Key) {
    t in s.workers && s.workers[t] == D.Worker(k, D.HintApproved, D.Start) && k !in s.owner
  }

  predicate Allowed(s: D.State, call: D.Call, k: D.Key) {
    D.Enabled(s, call) && call != D.Resume(k.corr) && !StartsHintWorker(s, call, k)
  }

  lemma Prepend(s: D.State, call: D.Call, rest: seq<D.Call>, k: D.Key)
    requires Allowed(s, call, k) && Continues(D.Next(s, call), rest, k) && Runs(D.Next(s, call), rest)
    ensures Continues(s, [call] + rest, k) && Runs(s, [call] + rest)
    ensures After(s, [call] + rest) == After(D.Next(s, call), rest)
  {
    hide D.Next, D.Enabled, StartsHintWorker;
    assert ([call] + rest)[1..] == rest;
  }

  /** The worker is idle again, and the pause controller is as before. */
  ghost predicate BackIdle(s: D.State, s': D.State, t: nat, k: D.Key) {
    HintIdle(s', t, k) && s'.pauses == s.pauses
  }

  lemma FromExecuting(s: D.State, t: nat, k: D.Key) returns (calls: seq<D.Call>)
    requires WorksOn(s, t, k) && s.workers[t].loop == D.HintApproved && s.workers[t].pc.Executing? && k !in s.owner
    ensures Continues(s, calls, k) && Runs(s, calls) && BackIdle(s, After(s, calls), t, k)
    ensures After(s, calls).begun == s.begun
  {
    Prepend(s, D.Finish(t), [], k);
    calls := [D.Finish(t)] + [];
  }

  lemma FromChecked(s: D.State, t: nat, k: D.Key) returns (calls: seq<D.Call>)
    requires WorksOn(s, t, k) && s.workers[t] == D.Worker(k, D.HintApproved, D.Checked) && D.QueueOf(s, k) != []
    ensures Continues(s, calls, k) && Runs(s, calls) && BackIdle(s, After(s, calls), t, k)
    ensures After(s, calls).begun == s.begun + [D.Entry(k, D.QueueOf(s, k)[0])]
  {
    calls := FromExecuting(D.Next(s, D.Take(t)), t, k);
    Prepend(s, D.Take(t), calls, k);
    calls := [D.Take(t)] + calls;
  }

  lemma FromLocked(s: D.State, t: nat, k: D.Key) returns (calls: seq<D.Call>)
    requires WorksOn(s, t, k) && s.workers[t] == D.Worker(k, D.HintApproved, D.Locked) && D.QueueOf(s, k) != []
    ensures Continues(s, calls, k) && Runs(s, calls) && BackIdle(s, After(s, calls), t, k)
    ensures After(s, calls).begun == s.begun + [D.Entry(k, D.QueueOf(s, k)[0])]
  {
    calls := FromChecked(D.Next(s, D.Check(t)), t, k);
    Prepend(s, D.Check(t), calls, k);
    calls := [D.Check(t)] + calls;
  }

  /** Four steps of an idle worker: it takes the head of its queue whether or
      not the correlation is paused, runs it, and is idle again. */
  lemma HintRound(s: D.State, t: nat, k: D.Key) returns (calls: seq<D.Call>)
    requires HintIdle(s, t, k) && D.QueueOf(s, k) != []
    ensures Continues(s, calls, k) && Runs(s, calls) && BackIdle(s, After(s, calls), t, k)
    ensures After(s, calls).begun == s.begun + [D.Entry(k, D.QueueOf(s, k)[0])]
  {
    calls := FromLocked(D.Next(s, D.Lock(t)), t, k);
    Prepend(s, D.Lock(t), calls, k);
    calls := [D.Lock(t)] + calls;
  }

  lemma {:induction false} Above(used: set<nat>) returns (n: nat)
    ensures forall y :: y in used ==> y < n
    decreases |used|
  {
    n := 0;
    if used != {} {
      var x :| x in used;
      var m := Above(used - {x});
      n := if m <= x then x + 1 else m;
      assert forall y :: y in used ==> y == x || y in used - {x};
    }
  }

  /** A further dispatch for a key that is being drained. */
  lemma OneMore(s: D.State, t: nat, k: D.Key, template: Item) returns (call: D.Call)
    requires Inv(s) && HintIdle(s, t, k)
    ensures Allowed(s, call, k)
    ensures var s' := D.Next(s, call);
      && HintIdle(s', t, k) && s'.pauses == s.pauses && s'.begun == s.begun && D.QueueOf(s', k) != []
  {
    hide Conserved, Filed;
    var tickets := set e | e in s.received :: e.item.ticket;
    var ticket := Above(tickets);
    var worker := Above(s.workers.Keys);
    var x := D.Entry(k, template.(ticket := ticket));
    assert forall e :: e in s.received ==> e.item.ticket in tickets;
    assert x !in s.received;
    assert WorksOn(s, t, k);
    call := D.Enqueue(x, D.Dispatching, worker);
  }

  /** However often: k begins n more executions, and nothing that happens on
      the way touches the pause controller. */
  lemma {:induction false} HintDrainsForever(s: D.State, t: nat, k: D.Key, template: Item, n: nat)
    returns (calls: seq<D.Call>)
    requires Inv(s) && HintIdle(s, t, k)
    ensures Continues(s, calls, k) && Runs(s, calls)
    ensures var s' := After(s, calls);
      && HintIdle(s', t, k) && s'.pauses == s.pauses && Begun(s'.begun, k) == Begun(s.begun, k) + n
    decreases n
  {
    hide D.Next, D.Enabled, Inv, HintIdle, StartsHintWorker;
    calls := [];
    if n > 0 {
      var call := OneMore(s, t, k, template);
      var s1 := D.Next(s, call);
      StepKeepsInv(s, call);
      var round := HintRound(s1, t, k);
      var s2 := After(s1, round);
      assert s2.begun[..|s1.begun|] == s1.begun;
      RunKeepsInvariant(s1, round);
      var rest := HintDrainsForever(s2, t, k, template, n - 1);
      ContinueFurther(s1, round, rest, k);
      Prepend(s, call, round + rest, k);
      calls := [call] + (round + rest);
    }
  }

  lemma {:induction false} RunKeepsInvariant(s: D.State, calls: seq<D.Call>)
    requires Inv(s) && Runs(s, calls)
    ensures Inv(After(s, calls))
    decreases |calls|
  {
    hide Inv, D.Next, D.Enabled;
    if calls != [] {
      StepKeepsInv(s, calls[0]);
      RunKeepsInvariant(D.Next(s, calls[0]), calls[1..]);
    }
  }

  /** A worker of the hint loop that is not about to end gets back to where it
      can start over. */
  lemma BackToIdle(s: D.State, t: nat, k: D.Key) returns (calls: seq<D.Call>)
    requires Inv(s) && WorksOn(s, t, k) && s.workers[t].loop == D.HintApproved && !AboutToEnd(s, t)
    ensures Continues(s, calls, k) && Runs(s, calls) && BackIdle(s, After(s, calls), t, k)
    ensures s.begun <= After(s, calls).begun
  {
    hide Conserved, Filed;
    LockFollowsWorker(s, t, k);
    match s.workers[t].pc
    case Start => calls := [];
    case Executing(_) => calls := FromExecuting(s, t, k);
    case Locked => calls := FromLocked(s, t, k);
    case Checked => calls := FromChecked(s, t, k);
    case Moving => assert false;
  }

  lemma LockFollowsWorker(s: D.State, t: nat, k: D.Key)
    requires Inv(s) && WorksOn(s, t, k)
    ensures k in s.owner <==> HoldsLock(s.workers[t].pc)
  {
    hide Conserved, Filed;
  }

  lemma {:induction false} BegunGrows(a: seq<D.Entry>, b: seq<D.Entry>, k: D.Key)
    requires a <= b
    ensures Begun(a, k) <= Begun(b, k)
    decreases |b|
  {
    if a != b {
      BegunGrows(a, b[..|b| - 1], k);
    }
  }

  lemma Unbounded(s: D.State, k: D.Key, b: nat) returns (calls: seq<D.Call>)
    requires Inv(s) && !PauseAware(s, k)
    ensures Continues(s, calls, k) && Runs(s, calls) && Begun(After(s, calls).begun, k) > b
  {
    hide Inv, D.Next, D.Enabled, StartsHintWorker, HintIdle, AboutToEnd, Begun;
    var t :| WorksOn(s, t, k) && s.workers[t].loop != D.Dispatching && !AboutToEnd(s, t);
    var first := BackToIdle(s, t, k);
    var s1 := After(s, first);
    RunKeepsInvariant(s, first);
    BegunGrows(s.begun, s1.begun, k);
    var template: Item :| true;
    var rest := HintDrainsForever(s1, t, k, template, b + 1);
    ContinueFurther(s, first, rest, k);
    calls := first + rest;
  }

  // ---------------------------------------------------------------------
  // Exactly when
  // ---------------------------------------------------------------------

  /** The executions that k begins while its correlation stays paused, and no
      worker of the hint loop starts on it, stay below b. */
  ghost predicate BoundedBy(s: D.State, k: D.Key, b: nat) {
    forall calls :: Continues(s, calls, k) && Runs(s, calls) ==> Begun(After(s, calls).begun, k) <= b
  }

  /** A pause bounds the executions of a key if and only if no worker of the
      loop for approved hints drains it. */
  lemma PauseBoundsIff(s: D.State, k: D.Key)
    requires Inv(s) && k.corr in s.pauses.paused
    ensures PauseAware(s, k) <==> exists b: nat :: BoundedBy(s, k, b)
  {
    hide Inv, Continues, Runs, After, PauseAware, Begun, Slack;
    if PauseAware(s, k) {
      forall calls | Continues(s, calls, k) && Runs(s, calls)
        ensures Begun(After(s, calls).begun, k) <= Begun(s.begun, k) + Slack(s, k)
      {
        AwareIsBounded(s, calls, k);
      }
      assert BoundedBy(s, k, Begun(s.begun, k) + Slack(s, k));
    } else if b: nat :| BoundedBy(s, k, b) {
      var calls := Unbounded(s, k, b);
      assert false;
    }
  }

  /** And that happens: one approved hint and a pause lead there. */
  lemma HintDrainIsReachable(x: D.Entry) returns (calls: seq<D.Call>)
    ensures Runs(D.Initial, calls)
    ensures var s := After(D.Initial, calls);
      Inv(s) && x.key.corr in s.pauses.paused && !PauseAware(s, x.key)
  {
    var enqueue, pause := D.Enqueue(x, D.HintApproved, 0), D.Pause(x.key.corr);
    calls := [enqueue, pause];
    assert calls[1..] == [pause] && calls[1..][1..] == [];
    var s1 := D.Next(D.Initial, enqueue);
    assert Runs(s1, [pause]);
    var s := D.Next(s1, pause);
    assert After(s1, [pause]) == After(s, []) == s;
    assert After(D.Initial, calls) == s;
    assert WorksOn(s, 0, x.key) && !AboutToEnd(s, 0);
    InitialInv();
    RunKeepsInvariant(D.Initial, calls);
  }
}
