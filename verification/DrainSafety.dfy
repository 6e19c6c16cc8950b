/** What the drain protocol guarantees in every interleaving of enqueuers,
    workers of both loops, and pauses, resumes and cancellations. */
module DrainSafety {
  import opened Events
  import opened DispatchQueue
  import D = Drain

  // ---------------------------------------------------------------------
  // One worker per key
  // ---------------------------------------------------------------------

  predicate WorksOn(s: D.State, t: nat, k: D.Key) {
    t in s.workers && s.workers[t].key == k
  }

  predicate HoldsLock(pc: D.Pc) {
    pc.Locked? || pc.Checked? || pc.Moving?
  }

  ghost predicate SoleWorkers(s: D.State) {
    && (forall t, u, k :: WorksOn(s, t, k) && WorksOn(s, u, k) ==> t == u)
    && (forall t, k :: WorksOn(s, t, k) ==> k in s.draining)
    && (forall k :: k in s.draining ==> exists t :: WorksOn(s, t, k))
  }

  ghost predicate LocksHeld(s: D.State) {
    && (forall k :: k in s.owner ==> WorksOn(s, s.owner[k], k) && HoldsLock(s.workers[s.owner[k]].pc))
    && (forall t :: t in s.workers && HoldsLock(s.workers[t].pc) ==>
          s.workers[t].key in s.owner && s.owner[s.workers[t].key] == t)
  }

  /** What every interleaving keeps of the workers. */
  ghost predicate Drained(s: D.State) {
    && SoleWorkers(s) && LocksHeld(s)
    && (forall k :: D.QueueOf(s, k) != [] ==> k in s.draining)
    && forall t :: t in s.workers && s.workers[t].pc.Moving? ==> s.workers[t].loop == D.Dispatching
  }

  lemma EnqueueKeepsDrained(s: D.State, x: D.Entry, loop: D.Loop, t: nat)
    requires Drained(s) && D.Enabled(s, D.Enqueue(x, loop, t))
    ensures Drained(D.AfterEnqueue(s, x, loop, t))
  {
    var s' := D.AfterEnqueue(s, x, loop, t);
    if x.key in s.draining {
      assert forall u, k :: WorksOn(s', u, k) <==> WorksOn(s, u, k);
    } else {
      assert forall u, k :: WorksOn(s', u, k) <==> WorksOn(s, u, k) || (u == t && k == x.key);
      forall k | k in s'.draining ensures exists u :: WorksOn(s', u, k) {
        if k == x.key {
          assert WorksOn(s', t, k);
        } else {
          var u :| WorksOn(s, u, k);
          assert WorksOn(s', u, k);
        }
      }
    }
  }

  lemma EndKeepsDrained(s: D.State, t: nat)
    requires Drained(s) && t in s.workers && HoldsLock(s.workers[t].pc)
    requires D.QueueOf(s, s.workers[t].key) == []
    ensures Drained(D.Ended(s, t))
  {
    var s' := D.Ended(s, t);
    assert WorksOn(s, t, s.workers[t].key);
    assert forall u, k :: WorksOn(s', u, k) <==> WorksOn(s, u, k) && u != t;
    forall k | k in s'.draining ensures exists u :: WorksOn(s', u, k) {
      var u :| WorksOn(s, u, k);
      assert WorksOn(s', u, k);
    }
  }

  /** A step that leaves every worker on its key, and its lock where its new
      place says. */
  lemma SameWorkersKeepDrained(s: D.State, s': D.State)
    requires Drained(s) && s'.draining == s.draining
    requires forall t, k :: WorksOn(s', t, k) <==> WorksOn(s, t, k)
    requires LocksHeld(s')
    requires forall t :: t in s'.workers && s'.workers[t].pc.Moving? ==> s'.workers[t].loop == D.Dispatching
    requires forall k :: D.QueueOf(s', k) != [] ==> D.QueueOf(s, k) != []
    ensures Drained(s')
  {
    forall k | k in s'.draining ensures exists t :: WorksOn(s', t, k) {
      var t :| WorksOn(s, t, k);
      assert WorksOn(s', t, k);
    }
  }

  lemma WorkerKeepsDrained(s: D.State, call: D.Call)
    requires Drained(s) && D.Enabled(s, call)
    requires call.Lock? || call.Check? || call.Move? || call.Take? || call.Finish?
    ensures Drained(D.Next(s, call))
  {
    hide D.WithBlocked;
    var s' := D.Next(s, call);
    var t := call.worker;
    var k := s.workers[t].key;
    assert WorksOn(s, t, k);
    if (call.Move? || call.Take?) && D.QueueOf(s, k) == [] {
      EndKeepsDrained(s, t);
    } else {
      SameWorkersKeepDrained(s, s');
    }
  }

  lemma StepKeepsDrained(s: D.State, call: D.Call)
    requires Drained(s) && D.Enabled(s, call)
    ensures Drained(D.Next(s, call))
  {
    match call
    case Enqueue(x, loop, t) => EnqueueKeepsDrained(s, x, loop, t);
    case Lock(_) => WorkerKeepsDrained(s, call);
    case Check(_) => WorkerKeepsDrained(s, call);
    case Move(_) => WorkerKeepsDrained(s, call);
    case Take(_) => WorkerKeepsDrained(s, call);
    case Finish(_) => WorkerKeepsDrained(s, call);
    case _ => SameWorkersKeepDrained(s, D.Next(s, call));
  }

  // ---------------------------------------------------------------------
  // Conservation
  // ---------------------------------------------------------------------

  ghost function Executors(s: D.State, x: D.Entry): set<nat> {
    set t | t in s.workers && s.workers[t].pc == D.Executing(x)
  }

  /** In how many places x is. */
  ghost function Places(s: D.State, x: D.Entry): nat {
    multiset(D.QueueOf(s, x.key))[x.item] + |Executors(s, x)| + multiset(s.finished)[x]
    + multiset(D.BlockedOf(s.pauses, x.key.corr))[x] + multiset(s.handedOut)[x] + multiset(s.discarded)[x]
  }

  /** Entries only sit in the places of their own key. */
  ghost predicate Filed(s: D.State) {
    && (forall c, x :: x in D.BlockedOf(s.pauses, c) ==> x.key.corr == c)
    && (forall t :: t in s.workers && s.workers[t].pc.Executing? ==> s.workers[t].pc.entry.key == s.workers[t].key)
  }

  /** Every entry received is in exactly one place: queued, held by a worker,
      finished, blocked, handed out by a resume, or discarded by a cancel. */
  ghost predicate Conserved(s: D.State) {
    && (forall x :: Places(s, x) == if x in s.received then 1 else 0)
    && (forall x :: multiset(s.begun)[x] == |Executors(s, x)| + multiset(s.finished)[x])
  }

  lemma BlockedAdds(p: D.Pauses, x: D.Entry, y: D.Entry)
    ensures multiset(D.BlockedOf(D.WithBlocked(p, x), y.key.corr))[y]
            == multiset(D.BlockedOf(p, y.key.corr))[y] + if x == y then 1 else 0
  {}

  lemma InsertedAdds(q: seq<Item>, x: Item, y: Item)
    ensures multiset(Inserted(q, x))[y] == multiset(q)[y] + if x == y then 1 else 0
  {
    var pos := Position(q, x, 0);
    assert q == q[..pos] + q[pos..];
  }

  lemma HeadTaken(q: seq<Item>, y: Item)
    requires q != []
    ensures multiset(q)[y] == multiset(q[1..])[y] + if q[0] == y then 1 else 0
  {
    assert q == [q[0]] + q[1..];
  }

  lemma FiledStep(s: D.State, call: D.Call)
    requires Filed(s) && D.Enabled(s, call)
    ensures Filed(D.Next(s, call))
  {
    hide Inserted;
    var s' := D.Next(s, call);
    forall c, x | x in D.BlockedOf(s'.pauses, c) ensures x.key.corr == c {
      if call.Move? && D.QueueOf(s, s.workers[call.worker].key) != [] {
        var k := s.workers[call.worker].key;
        assert x in D.BlockedOf(s.pauses, c) || x == D.Entry(k, D.QueueOf(s, k)[0]);
      } else {
        assert x in D.BlockedOf(s.pauses, c) || call == D.Block(x);
      }
    }
  }

  lemma EnqueueConserves(s: D.State, x: D.Entry, loop: D.Loop, t: nat, y: D.Entry)
    requires D.Enabled(s, D.Enqueue(x, loop, t))
    ensures var s' := D.AfterEnqueue(s, x, loop, t);
      && Executors(s', y) == Executors(s, y)
      && Places(s', y) == Places(s, y) + if x == y then 1 else 0
  {
    hide Inserted;
    InsertedAdds(D.QueueOf(s, x.key), x.item, y.item);
    assert Executors(D.AfterEnqueue(s, x, loop, t), y) == Executors(s, y);
  }

  lemma TakeConserves(s: D.State, t: nat, y: D.Entry)
    requires D.Enabled(s, D.Take(t)) && D.QueueOf(s, s.workers[t].key) != []
    ensures var s' := D.AfterTake(s, t);
      var x := D.Entry(s.workers[t].key, D.QueueOf(s, s.workers[t].key)[0]);
      && |Executors(s', y)| == |Executors(s, y)| + (if x == y then 1 else 0)
      && Places(s', y) == Places(s, y)
  {
    hide Executors;
    var k := s.workers[t].key;
    HeadTaken(D.QueueOf(s, k), y.item);
    TakeExecutors(s, t, y);
    assert D.QueueOf(D.AfterTake(s, t), y.key) == if y.key == k then D.QueueOf(s, k)[1..] else D.QueueOf(s, y.key);
    hide D.QueueOf, D.BlockedOf;
  }

  lemma TakeExecutors(s: D.State, t: nat, y: D.Entry)
    requires D.Enabled(s, D.Take(t)) && D.QueueOf(s, s.workers[t].key) != []
    ensures var x := D.Entry(s.workers[t].key, D.QueueOf(s, s.workers[t].key)[0]);
      |Executors(D.AfterTake(s, t), y)| == |Executors(s, y)| + if x == y then 1 else 0
  {
    var x := D.Entry(s.workers[t].key, D.QueueOf(s, s.workers[t].key)[0]);
    var before, after := Executors(s, y), Executors(D.AfterTake(s, t), y);
    assert t !in before;
    if x == y {
      assert after == before + {t};
    } else {
      assert after == before;
    }
  }

  lemma MoveConserves(s: D.State, t: nat, y: D.Entry)
    requires D.Enabled(s, D.Move(t)) && D.QueueOf(s, s.workers[t].key) != []
    ensures var s' := D.AfterMove(s, t);
      Executors(s', y) == Executors(s, y) && Places(s', y) == Places(s, y)
  {
    var q := D.QueueOf(s, s.workers[t].key);
    HeadTaken(q, y.item);
    BlockedAdds(s.pauses, D.Entry(s.workers[t].key, q[0]), y);
  }

  lemma EndConserves(s: D.State, t: nat, y: D.Entry)
    requires t in s.workers && !s.workers[t].pc.Executing?
    ensures Executors(D.Ended(s, t), y) == Executors(s, y) && Places(D.Ended(s, t), y) == Places(s, y)
  {}

  /** The places of y, when nothing of its queue, its correlation's blocked
      entries or the entries cleared changes. */
  lemma SamePlaces(s: D.State, s': D.State, y: D.Entry)
    requires s'.queues == s.queues && s'.pauses.blocked == s.pauses.blocked
    requires s'.handedOut == s.handedOut && s'.discarded == s.discarded
    requires |Executors(s', y)| + multiset(s'.finished)[y] == |Executors(s, y)| + multiset(s.finished)[y]
    ensures Places(s', y) == Places(s, y)
  {
    hide Executors;
  }

  lemma FinishConserves(s: D.State, t: nat, y: D.Entry)
    requires D.Enabled(s, D.Finish(t))
    ensures var s' := D.Next(s, D.Finish(t));
      && |Executors(s', y)| + multiset(s'.finished)[y] == |Executors(s, y)| + multiset(s.finished)[y]
      && Places(s', y) == Places(s, y)
  {
    hide Places;
    var s' := D.Next(s, D.Finish(t));
    var before, after := Executors(s, y), Executors(s', y);
    assert t !in after;
    if s.workers[t].pc.entry == y {
      assert before == after + {t};
    } else {
      assert before == after;
    }
    SamePlaces(s, s', y);
  }

  /** Clearing the blocked entries of c hands them all over. */
  lemma ClearedCount(p: D.Pauses, paused: set<D.Correlation>, c: D.Correlation, y: D.Entry)
    requires forall x :: x in D.BlockedOf(p, c) ==> x.key.corr == c
    ensures multiset(D.BlockedOf(D.Pauses(paused, p.blocked - {c}), y.key.corr))[y] + multiset(D.BlockedOf(p, c))[y]
            == multiset(D.BlockedOf(p, y.key.corr))[y]
  {
    if y.key.corr != c {
      assert y !in D.BlockedOf(p, c);
    }
  }

  /** The entries blocked for c move to the entries handed out or discarded. */
  lemma ClearConserves(s: D.State, call: D.Call, y: D.Entry)
    requires Filed(s) && (call.Resume? || call.Cancel?)
    ensures Places(D.Next(s, call), y) == Places(s, y)
    ensures Executors(D.Next(s, call), y) == Executors(s, y)
  {
    var s' := D.Next(s, call);
    ClearedCount(s.pauses, s'.pauses.paused, call.corr, y);
    assert Executors(s', y) == Executors(s, y);
    assert D.QueueOf(s', y.key) == D.QueueOf(s, y.key);
    hide Executors, D.QueueOf, D.BlockedOf, Filed;
  }

  lemma StepConserves(s: D.State, call: D.Call)
    requires Filed(s) && Conserved(s) && D.Enabled(s, call)
    ensures Conserved(D.Next(s, call))
  {
    hide Places, Executors, D.WithBlocked, Inserted, Filed;
    var s' := D.Next(s, call);
    forall y ensures
      && Places(s', y) == (if y in s'.received then 1 else 0)
      && multiset(s'.begun)[y] == |Executors(s', y)| + multiset(s'.finished)[y]
    {
      StepConservesOne(s, call, y);
    }
  }

  lemma StepConservesOne(s: D.State, call: D.Call, y: D.Entry)
    requires Filed(s) && D.Enabled(s, call)
    ensures var s' := D.Next(s, call);
      && Places(s', y) - (if y in s'.received then 1 else 0) == Places(s, y) - (if y in s.received then 1 else 0)
      && multiset(s'.begun)[y] - |Executors(s', y)| - multiset(s'.finished)[y]
         == multiset(s.begun)[y] - |Executors(s, y)| - multiset(s.finished)[y]
  {
    hide Filed, Places, Executors, D.WithBlocked, Inserted;
    var s' := D.Next(s, call);
    match call
    case Enqueue(x, loop, t) => EnqueueConserves(s, x, loop, t, y);
    case Move(t) => PopConserves(s, call, y);
    case Take(t) => PopConserves(s, call, y);
    case Finish(t) => FinishConserves(s, t, y);
    case Resume(c) => ClearConserves(s, call, y);
    case Cancel(c) => ClearConserves(s, call, y);
    case Block(x) => BlockConserves(s, x, y);
    case _ => QuietConserves(s, call, y);
  }

  lemma PopConserves(s: D.State, call: D.Call, y: D.Entry)
    requires Filed(s) && D.Enabled(s, call) && (call.Move? || call.Take?)
    ensures var s' := D.Next(s, call);
      && s'.received == s.received && Places(s', y) == Places(s, y)
      && multiset(s'.begun)[y] - |Executors(s', y)| - multiset(s'.finished)[y]
         == multiset(s.begun)[y] - |Executors(s, y)| - multiset(s.finished)[y]
  {
    hide Filed, Places, Executors, D.WithBlocked, Inserted;
    if D.QueueOf(s, s.workers[call.worker].key) == [] {
      EndConserves(s, call.worker, y);
    } else if call.Move? {
      MoveConserves(s, call.worker, y);
    } else {
      TakeConserves(s, call.worker, y);
    }
  }

  lemma QuietConserves(s: D.State, call: D.Call, y: D.Entry)
    requires D.Enabled(s, call) && (call.Lock? || call.Check? || call.Pause?)
    ensures var s' := D.Next(s, call);
      Executors(s', y) == Executors(s, y) && Places(s', y) == Places(s, y)
  {
    hide Places;
    var s' := D.Next(s, call);
    assert Executors(s', y) == Executors(s, y);
    SamePlaces(s, s', y);
  }

  lemma BlockConserves(s: D.State, x: D.Entry, y: D.Entry)
    requires D.Enabled(s, D.Block(x))
    ensures var s' := D.Next(s, D.Block(x));
      Executors(s', y) == Executors(s, y) && Places(s', y) == Places(s, y) + if x == y then 1 else 0
  {
    hide D.WithBlocked;
    BlockedAdds(s.pauses, x, y);
    assert Executors(D.Next(s, D.Block(x)), y) == Executors(s, y);
  }

  // ---------------------------------------------------------------------
  // Runs
  // ---------------------------------------------------------------------

  ghost predicate Inv(s: D.State) {
    Drained(s) && Filed(s) && Conserved(s)
  }

  lemma InitialInv()
    ensures Inv(D.Initial)
  {
    assert forall x :: Executors(D.Initial, x) == {};
  }

  lemma StepKeepsInv(s: D.State, call: D.Call)
    requires Inv(s) && D.Enabled(s, call)
    ensures Inv(D.Next(s, call))
  {
    hide Drained, Filed, Conserved;
    StepKeepsDrained(s, call);
    FiledStep(s, call);
    StepConserves(s, call);
  }

  lemma {:induction false} RunKeepsInv(states: seq<D.State>, calls: seq<D.Call>, n: nat)
    requires D.IsRun(states, calls) && states[0] == D.Initial && n < |states|
    ensures Inv(states[n])
  {
    hide Inv, D.Next, D.Enabled;
    if n == 0 {
      InitialInv();
    } else {
      RunKeepsInv(states, calls, n - 1);
      StepKeepsInv(states[n - 1], calls[n - 1]);
    }
  }

  predicate Executes(s: D.State, t: nat, k: D.Key) {
    WorksOn(s, t, k) && s.workers[t].pc.Executing?
  }

  /** Safety: in every state that any interleaving reaches, at most one
      execution per key is in progress, a non-empty queue has a live worker
      (so no entry is stranded), each entry received is in exactly one place,
      and a resume hands out each entry at most once. */
  lemma ReachableIsSafe(states: seq<D.State>, calls: seq<D.Call>, n: nat)
    requires D.IsRun(states, calls) && states[0] == D.Initial && n < |states|
    ensures var s := states[n];
      && (forall t, u, k :: Executes(s, t, k) && Executes(s, u, k) ==> t == u)
      && (forall k :: D.QueueOf(s, k) != [] ==> k in s.draining && exists t :: WorksOn(s, t, k))
      && (forall x :: Places(s, x) == if x in s.received then 1 else 0)
      && (forall x :: multiset(s.handedOut)[x] <= 1)
  {
    RunKeepsInv(states, calls, n);
    var s := states[n];
    forall x ensures multiset(s.handedOut)[x] <= 1 {
      assert Places(s, x) <= 1;
    }
  }

  // ---------------------------------------------------------------------
  // The pause bound
  // ---------------------------------------------------------------------

  /** How many executions the key began so far. */
  ghost function Begun(begun: seq<D.Entry>, k: D.Key): nat {
    if begun == [] then 0
    else Begun(begun[..|begun| - 1], k) + if begun[|begun| - 1].key == k then 1 else 0
  }

  /** The worker that passed its pause check and has not yet taken an entry. */
  predicate Committed(s: D.State, t: nat, k: D.Key) {
    WorksOn(s, t, k) && s.workers[t].pc.Checked?
  }

  /** It will take an entry, paused or not: its lock keeps the queue as it is. */
  ghost function Slack(s: D.State, k: D.Key): nat {
    if D.QueueOf(s, k) != [] && exists t :: Committed(s, t, k) then 1 else 0
  }

  /** A worker that holds its queue's lock and will find the queue empty. */
  predicate AboutToEnd(s: D.State, t: nat) {
    t in s.workers && HoldsLock(s.workers[t].pc) && D.QueueOf(s, s.workers[t].key) == []
  }

  /** The key is not drained by the loop for approved hints, unless by a worker
      that is about to end. */
  ghost predicate PauseAware(s: D.State, k: D.Key) {
    forall t :: WorksOn(s, t, k) ==> s.workers[t].loop == D.Dispatching || AboutToEnd(s, t)
  }

  lemma PausedStep(s: D.State, call: D.Call, k: D.Key)
    requires Inv(s) && D.Enabled(s, call)
    requires k.corr in s.pauses.paused && PauseAware(s, k) && call != D.Resume(k.corr)
    ensures var s' := D.Next(s, call);
      && k.corr in s'.pauses.paused
      && Begun(s'.begun, k) + Slack(s', k) <= Begun(s.begun, k) + Slack(s, k)
      && (forall x: D.Entry :: x.key == k && x in s'.handedOut ==> x in s.handedOut)
  {
    hide Conserved, Inserted, Begun;
    var s' := D.Next(s, call);
    forall x: D.Entry | x.key == k && x in s'.handedOut ensures x in s.handedOut {
    }
    if call.Take? && D.QueueOf(s, s.workers[call.worker].key) != [] {
      TakeSpends(s, call.worker, k);
    } else {
      assert s'.begun == s.begun;
      if D.QueueOf(s', k) != [] {
        if t :| Committed(s', t, k) {
          CommittedBefore(s, call, k, t);
        }
      }
    }
  }

  /** While k stays paused, a worker that will take an entry was already going
      to, or is the one that just took one. */
  lemma CommittedBefore(s: D.State, call: D.Call, k: D.Key, t: nat)
    requires Inv(s) && D.Enabled(s, call)
    requires k.corr in s.pauses.paused && PauseAware(s, k)
    requires Committed(D.Next(s, call), t, k) && D.QueueOf(D.Next(s, call), k) != []
    ensures Committed(s, t, k) && D.QueueOf(s, k) != []
  {
    hide Conserved, Filed, Inserted;
  }

  lemma TakeSpends(s: D.State, t: nat, k: D.Key)
    requires Inv(s) && D.Enabled(s, D.Take(t)) && D.QueueOf(s, s.workers[t].key) != []
    ensures var s' := D.AfterTake(s, t);
      Begun(s'.begun, k) + Slack(s', k) <= Begun(s.begun, k) + Slack(s, k)
  {
    hide Conserved;
    var s' := D.AfterTake(s, t);
    var x := D.Entry(s.workers[t].key, D.QueueOf(s, s.workers[t].key)[0]);
    assert s'.begun[..|s.begun|] == s.begun;
    if u :| Committed(s', u, k) {
      assert Committed(s, u, k) && u != t;
    }
    if x.key == k {
      assert Committed(s, t, k);
    }
  }

  /** From m to n the correlation of k is never resumed, and k is not drained
      by the loop that does not check for pauses. */
  ghost predicate PausedThroughout(states: seq<D.State>, calls: seq<D.Call>, m: nat, n: nat, k: D.Key)
    requires D.IsRun(states, calls) && m <= n < |states|
  {
    && k.corr in states[m].pauses.paused
    && forall i :: m <= i < n ==> calls[i] != D.Resume(k.corr) && PauseAware(states[i], k)
  }

  lemma {:induction false} PausedRun(states: seq<D.State>, calls: seq<D.Call>, m: nat, n: nat, k: D.Key)
    requires D.IsRun(states, calls) && states[0] == D.Initial && m <= n < |states|
    requires PausedThroughout(states, calls, m, n, k)
    ensures k.corr in states[n].pauses.paused
    ensures Begun(states[n].begun, k) + Slack(states[n], k) <= Begun(states[m].begun, k) + Slack(states[m], k)
    ensures forall x: D.Entry :: x.key == k && x in states[n].handedOut ==> x in states[m].handedOut
  {
    hide Inv, D.Next, D.Enabled, Slack, Begun, PauseAware;
    if n > m {
      PausedRun(states, calls, m, n - 1, k);
      RunKeepsInv(states, calls, n - 1);
      PausedStep(states[n - 1], calls[n - 1], k);
    }
  }

  /** The pause bound: while a correlation stays paused, a key of it begins at
      most one further execution, and none unless its worker had passed the
      pause check before; and once its worker is gone, every other entry it
      received is blocked (or was discarded by a cancellation). */
  lemma PauseBound(states: seq<D.State>, calls: seq<D.Call>, m: nat, n: nat, k: D.Key)
    requires D.IsRun(states, calls) && states[0] == D.Initial && m <= n < |states|
    requires PausedThroughout(states, calls, m, n, k)
    ensures Begun(states[n].begun, k) <= Begun(states[m].begun, k) + Slack(states[m], k)
    ensures k !in states[n].draining ==>
              forall x :: x in states[n].received && x.key == k
                          && x !in states[n].begun && x !in states[m].handedOut ==>
                x in D.BlockedOf(states[n].pauses, k.corr) || x in states[n].discarded
  {
    PausedRun(states, calls, m, n, k);
    RunKeepsInv(states, calls, n);
    var s := states[n];
    if k !in s.draining {
      forall x | x in s.received && x.key == k && x !in s.begun && x !in states[m].handedOut
        ensures x in D.BlockedOf(s.pauses, k.corr) || x in s.discarded
      {
        IdleMeansBlocked(s, k, x);
      }
    }
  }

  lemma IdleMeansBlocked(s: D.State, k: D.Key, x: D.Entry)
    requires Inv(s) && k !in s.draining && x.key == k
    requires x in s.received && x !in s.begun && x !in s.handedOut
    ensures x in D.BlockedOf(s.pauses, k.corr) || x in s.discarded
  {
    assert D.QueueOf(s, k) == [];
    assert multiset(s.begun)[x] == 0;
    assert Places(s, x) == 1;
  }
}
