/** Draining the dispatch queues while workflows pause, resume and cancel: the
    pause controller, the two drain loops over one queue, and every
    interleaving of them as a state machine. A queue's lock is held over
    several steps; each access to the pause controller is one step. */
module Drain {
  import opened Events
  import opened DispatchQueue

  type Correlation = string

  datatype Key = Key(handler: string, corr: Correlation)

  /** One dispatch: an item of the queue of its key. */
  datatype Entry = Entry(key: Key, item: Item)

  // ---------------------------------------------------------------------
  // The pause controller
  // ---------------------------------------------------------------------

  datatype Pauses = Pauses(paused: set<Correlation>, blocked: map<Correlation, seq<Entry>>)

  function BlockedOf(p: Pauses, c: Correlation): seq<Entry> {
    if c in p.blocked then p.blocked[c] else []
  }

  function WithBlocked(p: Pauses, x: Entry): Pauses {
    p.(blocked := p.blocked[x.key.corr := BlockedOf(p, x.key.corr) + [x]])
  }

  class PauseController {
    var paused: set<Correlation>
    var blocked: map<Correlation, seq<Entry>>

    function State(): Pauses
      reads this
    {
      Pauses(paused, blocked)
    }

    constructor ()
      ensures State() == Pauses({}, map[])
    {
      paused := {};
      blocked := map[];
    }

    method IsPaused(c: Correlation) returns (r: bool)
      ensures r == (c in paused)
    {
      r := c in paused;
    }

    method AddBlocked(x: Entry)
      modifies this
      ensures State() == WithBlocked(old(State()), x)
    {
      blocked := blocked[x.key.corr := (if x.key.corr in blocked then blocked[x.key.corr] else []) + [x]];
    }

    method Pause(c: Correlation)
      modifies this`paused
      ensures paused == old(paused) + {c}
    {
      paused := paused + {c};
    }

    method Resume(c: Correlation) returns (replay: seq<Entry>)
      modifies this
      ensures paused == old(paused) - {c} && blocked == old(blocked) - {c}
      ensures replay == BlockedOf(old(State()), c)
    {
      paused := paused - {c};
      replay := if c in blocked then blocked[c] else [];
      blocked := blocked - {c};
    }

    method MarkCancelled(c: Correlation)
      modifies this
      ensures paused == old(paused) + {c} && blocked == old(blocked) - {c}
    {
      paused := paused + {c};
      blocked := blocked - {c};
    }
  }

  // ---------------------------------------------------------------------
  // The queue and its drain loops
  // ---------------------------------------------------------------------

  function EntriesOf(k: Key, q: seq<Item>): seq<Entry> {
    seq(|q|, i requires 0 <= i < |q| => Entry(k, q[i]))
  }

  /** The whole queue moved to the blocked list, head first. */
  function Blocking(p: Pauses, k: Key, q: seq<Item>): Pauses {
    if q == [] then p else WithBlocked(Blocking(p, k, q[..|q| - 1]), Entry(k, q[|q| - 1]))
  }

  /** Moving a queue to the blocked list keeps its order. */
  lemma {:induction false} BlockingAppends(p: Pauses, k: Key, q: seq<Item>)
    ensures BlockedOf(Blocking(p, k, q), k.corr) == BlockedOf(p, k.corr) + EntriesOf(k, q)
    ensures Blocking(p, k, q).paused == p.paused
    ensures forall o :: o != k.corr ==> BlockedOf(Blocking(p, k, q), o) == BlockedOf(p, o)
  {
    if q != [] {
      var init := q[..|q| - 1];
      BlockingAppends(p, k, init);
      assert EntriesOf(k, q) == EntriesOf(k, init) + [Entry(k, q[|q| - 1])];
      var before := BlockedOf(p, k.corr);
      assert before + EntriesOf(k, q) == before + EntriesOf(k, init) + [Entry(k, q[|q| - 1])];
    }
  }

  /** The queue of one key, as its enqueuers and its drain worker use it. */
  class KeyedQueue {
    const key: Key
    const queue: Queue

    constructor (key: Key, queue: Queue)
      ensures this.key == key && this.queue == queue
    {
      this.key := key;
      this.queue := queue;
    }

    /** The locked section of an enqueue; the caller must start a drain worker
        when it returns true. */
    method Enqueue(item: Item) returns (start: bool)
      modifies queue
      ensures queue.items == Inserted(old(queue.items), item)
      ensures start == !old(queue.draining) && queue.draining
    {
      queue.Push(item);
      if queue.draining {
        return false;
      }
      queue.draining := true;
      return true;
    }

    /** The locked section of one drain iteration. The loop of enqueueAndDrain
        checks for a pause, the one for approved hints does not. */
    method NextEntry(pauser: PauseController, checksPause: bool) returns (next: Option<Item>)
      modifies queue, pauser
      ensures var moves := checksPause && key.corr in old(pauser.paused);
        var before := old(queue.items);
        && next == (if moves then None else Head(before))
        && queue.items == (if moves then [] else Rest(before))
        && queue.draining == (next.Some? && old(queue.draining))
        && pauser.State() == if moves then Blocking(old(pauser.State()), key, before) else old(pauser.State())
    {
      if checksPause {
        var isPaused := pauser.IsPaused(key.corr);
        if isPaused {
          ghost var before := queue.items;
          ghost var n := 0;
          var item := queue.Pop();
          while item.Some?
            invariant 0 <= n <= |before|
            invariant item == (if n < |before| then Some(before[n]) else None)
            invariant queue.items == if n < |before| then before[n + 1..] else []
            invariant pauser.State() == Blocking(old(pauser.State()), key, before[..n])
            decreases |before| - n
          {
            pauser.AddBlocked(Entry(key, item.value));
            assert before[..n + 1][..n] == before[..n];
            n := n + 1;
            item := queue.Pop();
          }
          assert before[..n] == before;
          queue.draining := false;
          return None;
        }
      }
      next := queue.Pop();
      if next.None? {
        queue.draining := false;
      }
    }
  }

  // ---------------------------------------------------------------------
  // Every interleaving
  // ---------------------------------------------------------------------

  /** Which loop a worker runs. */
  datatype Loop = Dispatching | HintApproved

  datatype Pc =
    | Start                   // about to take the queue's lock
    | Locked                  // holds it
    | Checked                 // holds it, and found the workflow not paused
    | Moving                  // holds it, and moves the queue to blocked
    | Executing(entry: Entry) // released it, and runs the handler

  datatype Worker = Worker(key: Key, loop: Loop, pc: Pc)

  datatype State = State(
    queues: map<Key, seq<Item>>,
    draining: set<Key>,
    owner: map<Key, nat>,        // who holds a queue's lock
    workers: map<nat, Worker>,
    pauses: Pauses,
    // what happened so far
    received: set<Entry>,
    begun: seq<Entry>,
    finished: seq<Entry>,
    handedOut: seq<Entry>,
    discarded: seq<Entry>)

  function QueueOf(s: State, k: Key): seq<Item> {
    if k in s.queues then s.queues[k] else []
  }

  datatype Call =
    | Enqueue(entry: Entry, loop: Loop, worker: nat)
    | Lock(worker: nat)
    | Check(worker: nat)
    | Move(worker: nat)
    | Take(worker: nat)
    | Finish(worker: nat)
    | Pause(corr: Correlation)
    | Resume(corr: Correlation)
    | Block(entry: Entry)       // a dispatch stopped before it was enqueued
    | Cancel(corr: Correlation)

  predicate Enabled(s: State, call: Call) {
    match call
    case Enqueue(x, _, t) => x !in s.received && t !in s.workers && x.key !in s.owner
    case Lock(t) => t in s.workers && s.workers[t].pc == Start && s.workers[t].key !in s.owner
    case Check(t) => t in s.workers && s.workers[t].pc == Locked
    case Move(t) => t in s.workers && s.workers[t].pc == Moving
    case Take(t) => t in s.workers && s.workers[t].pc == Checked
    case Finish(t) => t in s.workers && s.workers[t].pc.Executing?
    case Block(x) => x !in s.received
    case _ => true
  }

  function WithPc(s: State, t: nat, pc: Pc): map<nat, Worker>
    requires t in s.workers
  {
    s.workers[t := s.workers[t].(pc := pc)]
  }

  /** The worker clears the draining flag, unlocks and ends. */
  function Ended(s: State, t: nat): State
    requires t in s.workers
  {
    var k := s.workers[t].key;
    s.(draining := s.draining - {k}, owner := s.owner - {k}, workers := s.workers - {t})
  }

  function AfterEnqueue(s: State, x: Entry, loop: Loop, t: nat): State {
    var s' := s.(queues := s.queues[x.key := Inserted(QueueOf(s, x.key), x.item)], received := s.received + {x});
    if x.key in s.draining then s'
    else s'.(draining := s.draining + {x.key}, workers := s.workers[t := Worker(x.key, loop, Start)])
  }

  function AfterCheck(s: State, t: nat): State
    requires t in s.workers
  {
    var w := s.workers[t];
    s.(workers := WithPc(s, t, if w.loop == Dispatching && w.key.corr in s.pauses.paused then Moving else Checked))
  }

  function AfterMove(s: State, t: nat): State
    requires t in s.workers
  {
    var k := s.workers[t].key;
    var q := QueueOf(s, k);
    if q == [] then Ended(s, t)
    else s.(queues := s.queues[k := q[1..]], pauses := WithBlocked(s.pauses, Entry(k, q[0])))
  }

  function AfterTake(s: State, t: nat): State
    requires t in s.workers
  {
    var k := s.workers[t].key;
    var q := QueueOf(s, k);
    if q == [] then Ended(s, t)
    else s.(queues := s.queues[k := q[1..]], owner := s.owner - {k},
            workers := WithPc(s, t, Executing(Entry(k, q[0]))), begun := s.begun + [Entry(k, q[0])])
  }

  function Next(s: State, call: Call): State
    requires Enabled(s, call)
  {
    match call
    case Enqueue(x, loop, t) => AfterEnqueue(s, x, loop, t)
    case Lock(t) => s.(owner := s.owner[s.workers[t].key := t], workers := WithPc(s, t, Locked))
    case Check(t) => AfterCheck(s, t)
    case Move(t) => AfterMove(s, t)
    case Take(t) => AfterTake(s, t)
    case Finish(t) => s.(workers := WithPc(s, t, Start), finished := s.finished + [s.workers[t].pc.entry])
    case Pause(c) => s.(pauses := s.pauses.(paused := s.pauses.paused + {c}))
    case Resume(c) =>
      s.(pauses := Pauses(s.pauses.paused - {c}, s.pauses.blocked - {c}),
         handedOut := s.handedOut + BlockedOf(s.pauses, c))
    case Block(x) => s.(pauses := WithBlocked(s.pauses, x), received := s.received + {x})
    case Cancel(c) =>
      s.(pauses := Pauses(s.pauses.paused + {c}, s.pauses.blocked - {c}),
         discarded := s.discarded + BlockedOf(s.pauses, c))
  }

  const Initial := State(map[], {}, map[], map[], Pauses({}, map[]), {}, [], [], [], [])

  /** The states of a run: each follows from the one before by its call. */
  ghost predicate IsRun(states: seq<State>, calls: seq<Call>) {
    && |states| == |calls| + 1
    && forall i :: 0 <= i < |calls| ==> Enabled(states[i], calls[i]) && states[i + 1] == Next(states[i], calls[i])
  }
}
