/** The fair-share admission controller: its mutex-protected operations as a
    class, and every interleaving of callers over them as a state machine
    whose atomic steps are the critical sections. */
module FairDispatcher {

  type Correlation = string

  /** A waiter is known by its identity, as the source compares pointers. */
  datatype Waiter = Waiter(id: nat, corr: Correlation)

  datatype Fair = Fair(
    cap: nat,
    total: int,
    inflight: map<Correlation, int>,
    waiters: seq<Waiter>,
    admitted: set<nat>)  // identities whose admitted flag is set

  // ---------------------------------------------------------------------
  // What the operations compute
  // ---------------------------------------------------------------------

  function HeldBy(inflight: map<Correlation, int>, c: Correlation): int {
    if c in inflight then inflight[c] else 0
  }

  function AtLeastOne(n: int): int {
    if n < 1 then 1 else n
  }

  function FairShare(f: Fair, c: Correlation): int {
    AtLeastOne(f.cap / AtLeastOne(|f.inflight| + if c in f.inflight then 0 else 1))
  }

  /** Strictly under: a correlation that holds exactly its share is not. */
  predicate UnderShare(f: Fair, c: Correlation) {
    HeldBy(f.inflight, c) < FairShare(f, c)
  }

  function Remove(ws: seq<Waiter>, id: nat): seq<Waiter> {
    if ws == [] then []
    else if ws[0].id == id then ws[1..]
    else [ws[0]] + Remove(ws[1..], id)
  }

  function Grant(f: Fair, c: Correlation): Fair {
    f.(total := f.total + 1, inflight := f.inflight[c := HeldBy(f.inflight, c) + 1])
  }

  function Drop(f: Fair, c: Correlation): Fair {
    var n := HeldBy(f.inflight, c) - 1;
    f.(total := f.total - 1, inflight := if n == 0 then f.inflight - {c} else f.inflight[c := n])
  }

  function Admit(f: Fair, w: Waiter): Fair {
    Grant(f, w.corr).(admitted := f.admitted + {w.id}, waiters := Remove(f.waiters, w.id))
  }

  predicate Eligible(f: Fair, w: Waiter, underOnly: bool) {
    w.id !in f.admitted && (underOnly ==> UnderShare(f, w.corr))
  }

  /** The first eligible waiter at or after position i. */
  function FirstEligible(f: Fair, underOnly: bool, i: nat): (r: nat)
    requires i <= |f.waiters|
    ensures i <= r <= |f.waiters|
    ensures r < |f.waiters| ==> Eligible(f, f.waiters[r], underOnly)
    ensures forall k :: i <= k < r ==> !Eligible(f, f.waiters[k], underOnly)
    decreases |f.waiters| - i
  {
    if i == |f.waiters| || Eligible(f, f.waiters[i], underOnly) then i else FirstEligible(f, underOnly, i + 1)
  }

  function AdmitOne(f: Fair): Fair {
    if f.total >= f.cap || f.waiters == [] then f
    else
      var i := FirstEligible(f, true, 0);
      if i < |f.waiters| then Admit(f, f.waiters[i])
      else
        var j := FirstEligible(f, false, 0);
        if j < |f.waiters| then Admit(f, f.waiters[j]) else f
  }

  function Released(f: Fair, c: Correlation): Fair {
    AdmitOne(Drop(f, c))
  }

  predicate FastPath(f: Fair, c: Correlation) {
    f.total < f.cap && UnderShare(f, c)
  }

  // ---------------------------------------------------------------------
  // The object
  // ---------------------------------------------------------------------

  class Dispatcher {
    const cap: nat
    var total: int
    var inflight: map<Correlation, int>
    var waiters: seq<Waiter>
    var admitted: set<nat>

    function State(): Fair
      reads this
    {
      Fair(cap, total, inflight, waiters, admitted)
    }

    constructor (cap: nat)
      ensures State() == Fair(cap, 0, map[], [], {})
    {
      this.cap := cap;
      total := 0;
      inflight := map[];
      waiters := [];
      admitted := {};
    }

    method AtOrUnderFairShare(c: Correlation) returns (r: bool)
      ensures r == UnderShare(State(), c)
    {
      var active := |inflight|;
      if c !in inflight {
        active := active + 1;
      }
      if active < 1 {
        active := 1;
      }
      var fairShare := cap / active;
      if fairShare < 1 {
        fairShare := 1;
      }
      r := (if c in inflight then inflight[c] else 0) < fairShare;
    }

    method RemoveWaiter(id: nat)
      modifies this`waiters
      ensures waiters == Remove(old(waiters), id)
    {
      var i := 0;
      while i < |waiters|
        invariant i <= |waiters| && waiters == old(waiters)
        invariant Remove(waiters, id) == waiters[..i] + Remove(waiters[i..], id)
      {
        if waiters[i].id == id {
          waiters := waiters[..i] + waiters[i + 1..];
          return;
        }
        assert waiters[i..][1..] == waiters[i + 1..];
        assert waiters[..i] + [waiters[i]] == waiters[..i + 1];
        i := i + 1;
      }
    }

    method AdmitWaiter(w: Waiter)
      modifies this
      ensures State() == Admit(old(State()), w)
    {
      total := total + 1;
      inflight := inflight[w.corr := (if w.corr in inflight then inflight[w.corr] else 0) + 1];
      admitted := admitted + {w.id};
      RemoveWaiter(w.id);
    }

    method AdmitNext()
      modifies this
      ensures State() == AdmitOne(old(State()))
    {
      if total >= cap || |waiters| == 0 {
        return;
      }
      var i := 0;
      while i < |waiters|
        invariant i <= |waiters| && State() == old(State())
        invariant FirstEligible(State(), true, 0) == FirstEligible(State(), true, i)
      {
        var w := waiters[i];
        i := i + 1;
        if w.id in admitted {
          continue;
        }
        var under := AtOrUnderFairShare(w.corr);
        if under {
          AdmitWaiter(w);
          return;
        }
      }
      i := 0;
      while i < |waiters|
        invariant i <= |waiters| && State() == old(State())
        invariant FirstEligible(State(), false, 0) == FirstEligible(State(), false, i)
      {
        if waiters[i].id !in admitted {
          AdmitWaiter(waiters[i]);
          return;
        }
        i := i + 1;
      }
    }

    method Release(c: Correlation)
      modifies this
      ensures State() == Released(old(State()), c)
    {
      total := total - 1;
      inflight := inflight[c := (if c in inflight then inflight[c] else 0) - 1];
      if inflight[c] == 0 {
        inflight := inflight - {c};
      }
      assert State() == Drop(old(State()), c);
      AdmitNext();
    }

    /** acquire up to its first wait; `id` is the identity of the waiter it
        allocates. */
    method BeginAcquire(id: nat, c: Correlation) returns (granted: bool)
      modifies this
      ensures granted == FastPath(old(State()), c)
      ensures State() == if granted then Grant(old(State()), c)
                         else old(State()).(waiters := old(waiters) + [Waiter(id, c)])
    {
      if total < cap {
        var under := AtOrUnderFairShare(c);
        if under {
          total := total + 1;
          inflight := inflight[c := (if c in inflight then inflight[c] else 0) + 1];
          return true;
        }
      }
      waiters := waiters + [Waiter(id, c)];
      return false;
    }

    /** One round of acquire's wait loop; None goes back to sleep. */
    method Woken(id: nat, cancelled: bool) returns (done: bool, granted: bool)
      modifies this`waiters
      ensures granted == (id in admitted) && done == (granted || cancelled)
      ensures waiters == if done && !granted then Remove(old(waiters), id) else old(waiters)
    {
      if id in admitted {
        return true, true;
      }
      if cancelled {
        RemoveWaiter(id);
        return true, false;
      }
      return false, false;
    }
  }

  // ---------------------------------------------------------------------
  // Callers in any interleaving
  // ---------------------------------------------------------------------

  datatype Phase = Waiting | Granted | Aborted | Done

  datatype Caller = Caller(corr: Correlation, phase: Phase)

  datatype Sys = Sys(fair: Fair, callers: map<nat, Caller>)

  /** One critical section. Release is paired with a grant, once. */
  datatype Call =
    | CallAcquire(id: nat, corr: Correlation)
    | CallWake(id: nat, cancelled: bool)
    | CallRelease(id: nat)

  predicate Enabled(s: Sys, call: Call) {
    match call
    case CallAcquire(id, _) => id !in s.callers
    case CallWake(id, _) => id in s.callers && s.callers[id].phase == Waiting
    case CallRelease(id) => id in s.callers && s.callers[id].phase == Granted
  }

  function WithPhase(callers: map<nat, Caller>, id: nat, phase: Phase): map<nat, Caller>
    requires id in callers
  {
    callers[id := callers[id].(phase := phase)]
  }

  function Next(s: Sys, call: Call): Sys
    requires Enabled(s, call)
  {
    match call
    case CallAcquire(id, c) =>
      if FastPath(s.fair, c) then Sys(Grant(s.fair, c), s.callers[id := Caller(c, Granted)])
      else Sys(s.fair.(waiters := s.fair.waiters + [Waiter(id, c)]), s.callers[id := Caller(c, Waiting)])
    case CallWake(id, cancelled) =>
      if id in s.fair.admitted then s.(callers := WithPhase(s.callers, id, Granted))
      else if cancelled then
        Sys(s.fair.(waiters := Remove(s.fair.waiters, id)), WithPhase(s.callers, id, Aborted))
      else s
    case CallRelease(id) =>
      Sys(Released(s.fair, s.callers[id].corr), WithPhase(s.callers, id, Done))
  }

  /** The outstanding grants: returned to the caller, or admitted and not yet
      noticed by the sleeping caller. */
  ghost function Held(s: Sys): map<nat, Correlation> {
    map id | id in s.callers
             && (s.callers[id].phase == Granted || (s.callers[id].phase == Waiting && id in s.fair.admitted))
      :: s.callers[id].corr
  }

  ghost function Sum(m: map<Correlation, int>): int {
    if m == map[] then 0 else var c :| c in m; m[c] + Sum(m - {c})
  }

  ghost function HoldersOf(held: map<nat, Correlation>, c: Correlation): set<nat> {
    set id | id in held && held[id] == c
  }

  /** The counters agree with the outstanding grants, in total and per
      correlation. */
  ghost predicate Accounted(total: int, inflight: map<Correlation, int>, held: map<nat, Correlation>) {
    && total == Sum(inflight) == |held|
    && (forall c :: HeldBy(inflight, c) == |HoldersOf(held, c)|)
    && (forall c :: c in inflight ==> inflight[c] >= 1)
  }

  predicate Listed(s: Sys, id: nat) {
    exists w :: w in s.fair.waiters && w.id == id
  }

  ghost predicate Queued(s: Sys) {
    && (forall i, j :: 0 <= i < j < |s.fair.waiters| ==> s.fair.waiters[i].id != s.fair.waiters[j].id)
    && (forall w :: w in s.fair.waiters ==>
          w.id in s.callers && s.callers[w.id] == Caller(w.corr, Waiting) && w.id !in s.fair.admitted)
    && (forall id :: id in s.callers && s.callers[id].phase == Waiting ==> id in s.fair.admitted || Listed(s, id))
    && (forall id :: id in s.fair.admitted ==> id in s.callers && s.callers[id].phase != Aborted)
  }

  /** What every interleaving keeps. */
  ghost predicate Inv(s: Sys) {
    && s.fair.cap >= 1
    && Accounted(s.fair.total, s.fair.inflight, Held(s))
    && Queued(s)
    && s.fair.total <= s.fair.cap
    && (s.fair.waiters != [] ==> s.fair.total >= 1)
  }
}
