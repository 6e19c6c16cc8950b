/** What fair admission guarantees in every interleaving: exact accounting,
    the cap, no lost or leaked slot, progress, and bounded overtaking. */
module FairAdmission {
  import opened FairDispatcher
  import opened Finite

  // ---------------------------------------------------------------------
  // Accounting
  // ---------------------------------------------------------------------

  lemma {:induction false} SumRemove(m: map<Correlation, int>, c: Correlation)
    requires c in m
    ensures Sum(m) == m[c] + Sum(m - {c})
    decreases |m|
  {
    var k :| k in m && Sum(m) == m[k] + Sum(m - {k});
    if k != c {
      SumRemove(m - {k}, c);
      SumRemove(m - {c}, k);
      assert m - {k} - {c} == m - {c} - {k};
    }
  }

  lemma SumUpdate(m: map<Correlation, int>, c: Correlation, n: int)
    ensures Sum(m[c := n]) == Sum(m - {c}) + n
    ensures Sum(m) == Sum(m - {c}) + HeldBy(m, c)
  {
    SumRemove(m[c := n], c);
    assert m[c := n] - {c} == m - {c};
    if c in m {
      SumRemove(m, c);
    } else {
      assert m - {c} == m;
    }
  }

  lemma HoldersAdd(held: map<nat, Correlation>, id: nat, c: Correlation, o: Correlation)
    requires id !in held
    ensures |held[id := c]| == |held| + 1
    ensures |HoldersOf(held[id := c], o)| == |HoldersOf(held, o)| + if o == c then 1 else 0
  {
    assert held[id := c].Keys == held.Keys + {id};
    var before, after := HoldersOf(held, o), HoldersOf(held[id := c], o);
    if o == c {
      assert after == before + {id};
    } else {
      assert after == before;
    }
  }

  lemma AccountGrant(total: int, inflight: map<Correlation, int>, held: map<nat, Correlation>, id: nat, c: Correlation)
    requires Accounted(total, inflight, held) && id !in held
    ensures Accounted(total + 1, inflight[c := HeldBy(inflight, c) + 1], held[id := c])
  {
    hide Sum, HoldersOf;
    SumUpdate(inflight, c, HeldBy(inflight, c) + 1);
    HoldersAdd(held, id, c, c);
    var inflight' := inflight[c := HeldBy(inflight, c) + 1];
    forall o ensures HeldBy(inflight', o) == |HoldersOf(held[id := c], o)| {
      HoldersAdd(held, id, c, o);
    }
  }

  lemma AccountDrop(total: int, inflight: map<Correlation, int>, held: map<nat, Correlation>, id: nat)
    requires Accounted(total, inflight, held) && id in held
    ensures var c := held[id];
      var n := HeldBy(inflight, c) - 1;
      Accounted(total - 1, if n == 0 then inflight - {c} else inflight[c := n], held - {id})
  {
    hide Sum, HoldersOf;
    var c := held[id];
    var n := HeldBy(inflight, c) - 1;
    var held' := held - {id};
    assert held == held'[id := c];
    SumUpdate(inflight, c, n);
    HoldersAdd(held', id, c, c);
    assert n >= 0;
    var inflight' := if n == 0 then inflight - {c} else inflight[c := n];
    forall o ensures HeldBy(inflight', o) == |HoldersOf(held', o)| {
      HoldersAdd(held', id, c, o);
    }
  }

  // ---------------------------------------------------------------------
  // Which waiter is admitted
  // ---------------------------------------------------------------------

  predicate Distinct(ws: seq<Waiter>) {
    forall i, j :: 0 <= i < j < |ws| ==> ws[i].id != ws[j].id
  }

  lemma {:induction false} RemoveAt(ws: seq<Waiter>, i: nat)
    requires i < |ws| && Distinct(ws)
    ensures Remove(ws, ws[i].id) == ws[..i] + ws[i + 1..]
  {
    if i > 0 {
      assert ws[1..][i - 1] == ws[i];
      RemoveAt(ws[1..], i - 1);
      assert [ws[0]] + ws[1..][..i - 1] == ws[..i];
      assert ws[1..][i..] == ws[i + 1..];
    }
  }

  /** The admission rule: the oldest waiter under its share, and without one
      the oldest waiter. */
  ghost predicate Chosen(f: Fair, i: nat) {
    && i < |f.waiters|
    && (forall k :: 0 <= k < i ==> !UnderShare(f, f.waiters[k].corr))
    && (UnderShare(f, f.waiters[i].corr)
        || (i == 0 && forall k :: 0 <= k < |f.waiters| ==> !UnderShare(f, f.waiters[k].corr)))
  }

  lemma AdmitOneChooses(f: Fair) returns (i: nat)
    requires f.total < f.cap && f.waiters != []
    requires forall w :: w in f.waiters ==> w.id !in f.admitted
    ensures Chosen(f, i) && AdmitOne(f) == Admit(f, f.waiters[i])
  {
    i := FirstEligible(f, true, 0);
    if i == |f.waiters| {
      i := 0;
      assert forall k :: 0 <= k < |f.waiters| ==> !Eligible(f, f.waiters[k], true);
      assert Eligible(f, f.waiters[0], false);
    } else {
      assert forall k :: 0 <= k < i ==> !Eligible(f, f.waiters[k], true);
    }
  }

  // ---------------------------------------------------------------------
  // The invariant
  // ---------------------------------------------------------------------

  lemma AcquireKeepsQueued(s: Sys, id: nat, c: Correlation)
    requires Queued(s) && Enabled(s, CallAcquire(id, c))
    ensures Queued(Next(s, CallAcquire(id, c)))
  {
    hide FastPath;
    var s' := Next(s, CallAcquire(id, c));
    if FastPath(s.fair, c) {
      assert s'.fair.waiters == s.fair.waiters;
      assert forall o :: Listed(s', o) <==> Listed(s, o);
    } else {
      assert Waiter(id, c) in s'.fair.waiters;
      forall o | Listed(s, o) ensures Listed(s', o) {
        var w :| w in s.fair.waiters && w.id == o;
        assert w in s'.fair.waiters;
      }
    }
  }

  lemma AcquireKeepsInv(s: Sys, id: nat, c: Correlation)
    requires Inv(s) && Enabled(s, CallAcquire(id, c))
    ensures Inv(Next(s, CallAcquire(id, c)))
  {
    hide Accounted, UnderShare;
    var s' := Next(s, CallAcquire(id, c));
    AcquireKeepsQueued(s, id, c);
    hide Queued;
    if FastPath(s.fair, c) {
      assert Held(s') == Held(s)[id := c];
      AccountGrant(s.fair.total, s.fair.inflight, Held(s), id, c);
    } else {
      NewWaiterHoldsNothing(s, id, c);
      SlowPathMeansBusy(s.fair, Held(s), c);
    }
  }

  lemma NewWaiterHoldsNothing(s: Sys, id: nat, c: Correlation)
    requires Queued(s) && Enabled(s, CallAcquire(id, c)) && !FastPath(s.fair, c)
    ensures Held(Next(s, CallAcquire(id, c))) == Held(s)
  {
    hide FastPath;
  }

  /** A caller that has to wait waits for somebody. */
  lemma SlowPathMeansBusy(f: Fair, held: map<nat, Correlation>, c: Correlation)
    requires f.cap >= 1 && !FastPath(f, c) && Accounted(f.total, f.inflight, held)
    ensures f.total >= 1
  {
    hide Sum;
    if f.total < f.cap {
      assert HeldBy(f.inflight, c) >= 1;
      SubsetSize(HoldersOf(held, c), held.Keys);
    }
  }

  lemma WakeKeepsInv(s: Sys, id: nat, cancelled: bool)
    requires Inv(s) && Enabled(s, CallWake(id, cancelled))
    ensures Inv(Next(s, CallWake(id, cancelled)))
  {
    hide Accounted, Queued;
    WakeKeepsQueued(s, id, cancelled);
    assert Held(Next(s, CallWake(id, cancelled))) == Held(s);
  }

  lemma WakeKeepsQueued(s: Sys, id: nat, cancelled: bool)
    requires Queued(s) && Enabled(s, CallWake(id, cancelled))
    ensures Queued(Next(s, CallWake(id, cancelled)))
  {
    var s' := Next(s, CallWake(id, cancelled));
    if id in s.fair.admitted {
      assert forall o :: Listed(s', o) <==> Listed(s, o);
    } else if cancelled {
      var i := ListedAt(s, id);
      RemoveAt(s.fair.waiters, i);
      StillListed(s, s', i);
    }
  }

  lemma ListedAt(s: Sys, id: nat) returns (i: nat)
    requires Listed(s, id)
    ensures i < |s.fair.waiters| && s.fair.waiters[i].id == id
  {
    var w :| w in s.fair.waiters && w.id == id;
    i :| 0 <= i < |s.fair.waiters| && s.fair.waiters[i] == w;
  }

  /** Taking the waiter at i off the list leaves every other one listed. */
  lemma StillListed(s: Sys, s': Sys, i: nat)
    requires Distinct(s.fair.waiters) && i < |s.fair.waiters|
    requires s'.fair.waiters == s.fair.waiters[..i] + s.fair.waiters[i + 1..]
    ensures Distinct(s'.fair.waiters)
    ensures forall w :: w in s'.fair.waiters <==> w in s.fair.waiters && w.id != s.fair.waiters[i].id
    ensures forall o :: Listed(s', o) <==> Listed(s, o) && o != s.fair.waiters[i].id
  {
    var ws, ws' := s.fair.waiters, s'.fair.waiters;
    forall w | w in ws && w.id != ws[i].id ensures w in ws' {
      var k :| 0 <= k < |ws| && ws[k] == w;
      assert w == if k < i then ws'[k] else ws'[k - 1];
    }
    forall o | Listed(s, o) && o != ws[i].id ensures Listed(s', o) {
      var w :| w in ws && w.id == o;
      assert w in ws';
    }
  }

  /** The state between a release's accounting and its admission. */
  function Dropped(s: Sys, id: nat): Sys
    requires Enabled(s, CallRelease(id))
  {
    Sys(Drop(s.fair, s.callers[id].corr), WithPhase(s.callers, id, Done))
  }

  lemma DropKeepsCounts(s: Sys, id: nat)
    requires Inv(s) && Enabled(s, CallRelease(id))
    ensures var d := Dropped(s, id);
      && Accounted(d.fair.total, d.fair.inflight, Held(d)) && Queued(d)
      && 0 <= d.fair.total < d.fair.cap && d.fair.waiters == s.fair.waiters
  {
    hide Sum, HoldersOf;
    var d := Dropped(s, id);
    assert Held(d) == Held(s) - {id};
    AccountDrop(s.fair.total, s.fair.inflight, Held(s), id);
    assert forall o :: Listed(d, o) <==> Listed(s, o);
  }

  lemma AdmitKeepsQueued(d: Sys, i: nat)
    requires i < |d.fair.waiters| && Queued(d)
    ensures Queued(d.(fair := Admit(d.fair, d.fair.waiters[i])))
  {
    var s' := d.(fair := Admit(d.fair, d.fair.waiters[i]));
    RemoveAt(d.fair.waiters, i);
    StillListed(d, s', i);
    hide Remove, Listed;
  }

  lemma AdmitKeepsInv(d: Sys, i: nat)
    requires d.fair.cap >= 1 && 0 <= d.fair.total < d.fair.cap && i < |d.fair.waiters|
    requires Accounted(d.fair.total, d.fair.inflight, Held(d)) && Queued(d)
    ensures Inv(d.(fair := Admit(d.fair, d.fair.waiters[i])))
  {
    hide Accounted, Remove, Listed;
    var w := d.fair.waiters[i];
    var s' := d.(fair := Admit(d.fair, w));
    AdmitKeepsQueued(d, i);
    assert Held(s') == Held(d)[w.id := w.corr];
    AccountGrant(d.fair.total, d.fair.inflight, Held(d), w.id, w.corr);
  }

  /** Each release with a waiter listed admits exactly one: the oldest under
      its share, else the oldest. */
  lemma ReleaseAdmitsOne(s: Sys, id: nat) returns (i: nat)
    requires Inv(s) && Enabled(s, CallRelease(id)) && s.fair.waiters != []
    ensures var d := Dropped(s, id).fair;
      var f' := Next(s, CallRelease(id)).fair;
      && Chosen(d, i) && i < |s.fair.waiters|
      && f'.waiters == s.fair.waiters[..i] + s.fair.waiters[i + 1..]
      && f'.admitted == s.fair.admitted + {s.fair.waiters[i].id} && s.fair.waiters[i].id !in s.fair.admitted
      && f'.total == s.fair.total
  {
    hide Accounted;
    DropKeepsCounts(s, id);
    i := AdmitOneChooses(Dropped(s, id).fair);
    RemoveAt(s.fair.waiters, i);
  }

  lemma ReleaseKeepsInv(s: Sys, id: nat)
    requires Inv(s) && Enabled(s, CallRelease(id))
    ensures Inv(Next(s, CallRelease(id)))
  {
    hide Accounted, Queued;
    DropKeepsCounts(s, id);
    var d := Dropped(s, id);
    if s.fair.waiters != [] {
      var i := AdmitChosen(d);
      AdmitKeepsInv(d, i);
    }
  }

  lemma AdmitChosen(d: Sys) returns (i: nat)
    requires Queued(d) && d.fair.total < d.fair.cap && d.fair.waiters != []
    ensures i < |d.fair.waiters| && AdmitOne(d.fair) == Admit(d.fair, d.fair.waiters[i])
  {
    i := AdmitOneChooses(d.fair);
  }

  lemma StepKeepsInv(s: Sys, call: Call)
    requires Inv(s) && Enabled(s, call)
    ensures Inv(Next(s, call))
  {
    match call
    case CallAcquire(id, c) => AcquireKeepsInv(s, id, c);
    case CallWake(id, cancelled) => WakeKeepsInv(s, id, cancelled);
    case CallRelease(id) => ReleaseKeepsInv(s, id);
  }

  // ---------------------------------------------------------------------
  // Runs
  // ---------------------------------------------------------------------

  /** The states of a run: each follows from the one before by its call. */
  ghost predicate IsRun(states: seq<Sys>, calls: seq<Call>) {
    && |states| == |calls| + 1
    && forall i :: 0 <= i < |calls| ==> Enabled(states[i], calls[i]) && states[i + 1] == Next(states[i], calls[i])
  }

  function Initial(cap: nat): Sys {
    Sys(Fair(cap, 0, map[], [], {}), map[])
  }

  lemma {:induction false} RunKeepsInv(states: seq<Sys>, calls: seq<Call>, n: nat)
    requires IsRun(states, calls) && Inv(states[0]) && n < |states|
    ensures Inv(states[n])
  {
    if n > 0 {
      RunKeepsInv(states, calls, n - 1);
      StepKeepsInv(states[n - 1], calls[n - 1]);
    }
  }

  /** Safety: in every state that any interleaving of callers reaches, the
      counters equal the outstanding grants, the cap holds, a cancelled caller
      holds nothing and is not listed, and waiting means someone holds a
      slot. */
  lemma ReachableIsSafe(cap: nat, states: seq<Sys>, calls: seq<Call>, n: nat)
    requires cap >= 1 && IsRun(states, calls) && states[0] == Initial(cap) && n < |states|
    ensures var s := states[n];
      && s.fair.total == Sum(s.fair.inflight) == |Held(s)| <= cap
      && (forall c :: HeldBy(s.fair.inflight, c) == |HoldersOf(Held(s), c)|)
      && (forall id :: id in s.callers && s.callers[id].phase == Aborted ==>
            id !in Held(s) && id !in s.fair.admitted && !Listed(s, id))
      && (s.fair.waiters != [] ==> exists id :: id in Held(s))
  {
    var s0 := states[0];
    assert Held(s0) == map[];
    assert forall c :: HoldersOf(Held(s0), c) == {};
    RunKeepsInv(states, calls, n);
    CapIsFixed(states, calls, n);
    var s := states[n];
    SomeoneHolds(Held(s));
  }

  lemma SomeoneHolds(held: map<nat, Correlation>)
    ensures |held| >= 1 ==> exists id :: id in held
  {
    if forall id :: id !in held {
      assert held == map[];
    }
  }

  lemma {:induction false} CapIsFixed(states: seq<Sys>, calls: seq<Call>, n: nat)
    requires IsRun(states, calls) && n < |states|
    ensures states[n].fair.cap == states[0].fair.cap
  {
    if n > 0 {
      CapIsFixed(states, calls, n - 1);
    }
  }

  /** A simultaneous cancel never loses an admission: a sleeping caller that
      was admitted returns true, cancelled or not, and keeps its slot. */
  lemma AdmissionSurvivesCancel(s: Sys, id: nat, cancelled: bool)
    requires Inv(s) && Enabled(s, CallWake(id, cancelled))
    ensures var s' := Next(s, CallWake(id, cancelled));
      && Held(s') == Held(s)
      && (id in Held(s) ==> s'.callers[id].phase == Granted)
      && (id !in Held(s) && cancelled ==> s'.callers[id].phase == Aborted && !Listed(s', id))
  {
    hide Accounted;
    var s' := Next(s, CallWake(id, cancelled));
    assert Held(s') == Held(s);
    if id !in Held(s) && cancelled {
      var i := ListedAt(s, id);
      RemoveAt(s.fair.waiters, i);
      StillListed(s, s', i);
    }
  }

  // ---------------------------------------------------------------------
  // Bounded overtaking
  // ---------------------------------------------------------------------

  function Releases(calls: seq<Call>): nat {
    if calls == [] then 0
    else Releases(calls[..|calls| - 1]) + if calls[|calls| - 1].CallRelease? then 1 else 0
  }

  /** At each release while w is listed, as the slot comes free, the
      correlation of w is under its share. */
  ghost predicate UnderAtReleases(states: seq<Sys>, calls: seq<Call>, w: Waiter)
    requires IsRun(states, calls)
  {
    forall i :: 0 <= i < |calls| && calls[i].CallRelease? && w in states[i].fair.waiters ==>
      UnderShare(Dropped(states[i], calls[i].id).fair, w.corr)
  }

  ghost predicate At(s: Sys, w: Waiter, k: int) {
    0 <= k < |s.fair.waiters| && s.fair.waiters[k] == w
  }

  /** What one step does to a listed waiter that is under share if the step
      is a release: it is admitted, it is cancelled, or it stays listed no
      further back, and strictly nearer the front after a release. */
  lemma StepAdvances(s: Sys, call: Call, w: Waiter, k: nat)
    requires Inv(s) && Enabled(s, call) && At(s, w, k)
    requires call.CallRelease? ==> UnderShare(Dropped(s, call.id).fair, w.corr)
    ensures var s' := Next(s, call);
      || w.id in s'.fair.admitted
      || call == CallWake(w.id, true)
      || exists k': nat :: At(s', w, k') && k' <= k - if call.CallRelease? then 1 else 0
  {
    hide Accounted, UnderShare, Held;
    var s' := Next(s, call);
    match call
    case CallAcquire(id, c) =>
      assert At(s', w, k);
    case CallWake(id, cancelled) =>
      if id !in s.fair.admitted && cancelled && id != w.id {
        var i := ListedAt(s, id);
        RemoveAt(s.fair.waiters, i);
        assert At(s', w, if i < k then k - 1 else k);
      } else {
        assert call == CallWake(w.id, true) || At(s', w, k);
      }
    case CallRelease(id) => ReleaseAdvances(s, id, w, k);
  }

  lemma ReleaseAdvances(s: Sys, id: nat, w: Waiter, k: nat)
    requires Inv(s) && Enabled(s, CallRelease(id)) && At(s, w, k)
    requires UnderShare(Dropped(s, id).fair, w.corr)
    ensures var s' := Next(s, CallRelease(id));
      w.id in s'.fair.admitted || (k > 0 && At(s', w, k - 1))
  {
    hide Accounted, UnderShare, Held, Queued;
    var i := ReleaseAdmitsOne(s, id);
    assert i <= k;
  }

  lemma AdmittedForGood(states: seq<Sys>, calls: seq<Call>, id: nat, n: nat)
    requires IsRun(states, calls) && n < |states| && id in states[n].fair.admitted
    ensures id in states[|calls|].fair.admitted
    decreases |states| - n
  {
    if n < |calls| {
      AdmittedForGood(states, calls, id, n + 1);
    }
  }

  lemma {:induction false} StillWaiting(states: seq<Sys>, calls: seq<Call>, w: Waiter, k: nat, n: nat)
    requires IsRun(states, calls) && Inv(states[0]) && At(states[0], w, k)
    requires UnderAtReleases(states, calls, w) && CallWake(w.id, true) !in calls
    requires n <= |calls| && w.id !in states[|calls|].fair.admitted
    ensures exists k': nat :: At(states[n], w, k') && k' + Releases(calls[..n]) <= k
  {
    if n == 0 {
      assert At(states[0], w, k) && calls[..0] == [];
    } else {
      StillWaiting(states, calls, w, k, n - 1);
      var k': nat :| At(states[n - 1], w, k') && k' + Releases(calls[..n - 1]) <= k;
      RunKeepsInv(states, calls, n - 1);
      assert calls[n - 1] in calls;
      StepAdvances(states[n - 1], calls[n - 1], w, k');
      if w.id in states[n].fair.admitted {
        AdmittedForGood(states, calls, w.id, n);
      }
      assert calls[..n][..n - 1] == calls[..n - 1];
    }
  }

  /** Bounded overtaking: a waiter at index k whose correlation is under share
      at each release, and that is not cancelled, is admitted within k + 1
      releases, whatever arrivals, cancellations and fast-path grants
      interleave. */
  lemma BoundedOvertaking(states: seq<Sys>, calls: seq<Call>, w: Waiter, k: nat)
    requires IsRun(states, calls) && Inv(states[0]) && At(states[0], w, k)
    requires UnderAtReleases(states, calls, w) && CallWake(w.id, true) !in calls
    requires Releases(calls) >= k + 1
    ensures w.id in states[|calls|].fair.admitted
  {
    assert calls[..|calls|] == calls;
    if w.id !in states[|calls|].fair.admitted {
      StillWaiting(states, calls, w, k, |calls|);
    }
  }

  /** The starvation guard only guards: a waiter at or over its share is
      admitted only when no listed waiter is under its own. */
  lemma OverShareYields(s: Sys, id: nat, w: Waiter)
    requires Inv(s) && Enabled(s, CallRelease(id)) && w in s.fair.waiters
    requires w.id in Next(s, CallRelease(id)).fair.admitted
    requires !UnderShare(Dropped(s, id).fair, w.corr)
    ensures forall o :: o in s.fair.waiters ==> !UnderShare(Dropped(s, id).fair, o.corr)
    ensures w == s.fair.waiters[0]
  {
    hide Accounted, UnderShare, Held;
    var i := ReleaseAdmitsOne(s, id);
    assert w == s.fair.waiters[i];
  }

  // ---------------------------------------------------------------------
  // What a fair share is
  // ---------------------------------------------------------------------

  /** The correlations that share the cap from c's point of view: those that
      hold slots, and c. */
  function Sharers(f: Fair, c: Correlation): set<Correlation> {
    f.inflight.Keys + {c}
  }

  lemma SharersCount(f: Fair, c: Correlation)
    ensures FairShare(f, c) == AtLeastOne(f.cap / |Sharers(f, c)|) && |Sharers(f, c)| >= 1
  {
    var keys := f.inflight.Keys;
    assert |keys| == |f.inflight|;
    if c in keys {
      assert Sharers(f, c) == keys;
      assert keys == (keys - {c}) + {c};
    } else {
      assert |Sharers(f, c)| == |keys| + 1;
    }
  }

  lemma Quotient(cap: nat, n: nat)
    requires n >= 1
    ensures n * (cap / n) <= cap < n * (cap / n + 1)
    ensures n <= cap <==> cap / n >= 1
  {
    assert cap == n * (cap / n) + cap % n;
  }

  /** From c's point of view the cap is shared among the holders and c: each
      share is as large as possible without the shares exceeding the cap, and
      one slot when there are more sharers than slots. All holders have the
      same share, and so have all newcomers. */
  lemma ShareIsFair(f: Fair, c: Correlation)
    ensures var n := |Sharers(f, c)|;
      && n >= 1
      && (n <= f.cap ==> n * FairShare(f, c) <= f.cap < n * (FairShare(f, c) + 1))
      && (n > f.cap ==> FairShare(f, c) == 1)
    ensures forall o :: (o in f.inflight <==> c in f.inflight) ==> FairShare(f, o) == FairShare(f, c)
  {
    SharersCount(f, c);
    assert forall o :: (o in f.inflight <==> c in f.inflight) ==> FairShare(f, o) == FairShare(f, c);
    hide FairShare, Sharers;
    Quotient(f.cap, |Sharers(f, c)|);
  }

  /** A fast-path grant keeps its correlation within its share. */
  lemma FastPathStaysInShare(f: Fair, c: Correlation)
    requires FastPath(f, c)
    ensures HeldBy(Grant(f, c).inflight, c) <= FairShare(f, c) == FairShare(Grant(f, c), c)
    ensures Grant(f, c).total <= f.cap
  {
    SharersCount(f, c);
    SharersCount(Grant(f, c), c);
    assert Sharers(Grant(f, c), c) == Sharers(f, c);
  }

  /** A correlation that is alone never waits while a slot is free. */
  lemma AloneMeansFastPath(s: Sys, c: Correlation)
    requires Inv(s) && s.fair.total < s.fair.cap
    requires s.fair.inflight.Keys <= {c}
    ensures FastPath(s.fair, c)
  {
    var f := s.fair;
    ShareIsFair(f, c);
    assert Sharers(f, c) == {c};
    SumUpdate(f.inflight, c, 0);
    assert f.inflight - {c} == map[];
  }
}
