/** The DAG algorithms of a workflow definition: downstream search, retry
    invalidation, and the two graph rewrites. A graph maps each handler to
    its predecessors, so an edge x -> y means that x is listed under y. */
module WorkflowGraph {
  import opened Events
  import opened Finite

  type Graph = map<Persona, seq<Persona>>

  predicate Edge(g: Graph, x: Persona, y: Persona) {
    y in g && x in g[y]
  }

  ghost predicate IsPath(g: Graph, p: seq<Persona>) {
    |p| >= 1 && forall i :: 0 <= i < |p| - 1 ==> Edge(g, p[i], p[i + 1])
  }

  /** x must finish before y: a path of at least one edge leads from x to y. */
  ghost predicate Precedes(g: Graph, x: Persona, y: Persona) {
    exists p :: IsPath(g, p) && |p| >= 2 && p[0] == x && p[|p| - 1] == y
  }

  ghost predicate Acyclic(g: Graph) {
    forall x :: !Precedes(g, x, x)
  }

  /** y is x or depends on x, directly or not. */
  ghost predicate DependsOn(g: Graph, y: Persona, x: Persona) {
    x == y || Precedes(g, x, y)
  }

  /** The declarative meaning of DownstreamOf. */
  ghost function Downstream(g: Graph, x: Persona): set<Persona> {
    set y | y in g.Keys + {x} && DependsOn(g, y, x)
  }

  lemma PathEndIsKey(g: Graph, x: Persona, y: Persona)
    requires Precedes(g, x, y)
    ensures y in g
  {
    var p :| IsPath(g, p) && |p| >= 2 && p[0] == x && p[|p| - 1] == y;
    assert Edge(g, p[|p| - 2], p[|p| - 2 + 1]);
  }

  lemma DownstreamIff(g: Graph, x: Persona, y: Persona)
    ensures y in Downstream(g, x) <==> DependsOn(g, y, x)
  {
    if x != y && Precedes(g, x, y) {
      PathEndIsKey(g, x, y);
    }
  }

  lemma EdgePrecedes(g: Graph, x: Persona, y: Persona)
    requires Edge(g, x, y)
    ensures Precedes(g, x, y)
  {
    var p := [x, y];
    assert IsPath(g, p) && p[0] == x && p[|p| - 1] == y;
  }

  lemma PrecedesTransitive(g: Graph, x: Persona, y: Persona, z: Persona)
    requires Precedes(g, x, y) && Precedes(g, y, z)
    ensures Precedes(g, x, z)
  {
    var p :| IsPath(g, p) && |p| >= 2 && p[0] == x && p[|p| - 1] == y;
    var q :| IsPath(g, q) && |q| >= 2 && q[0] == y && q[|q| - 1] == z;
    var r := p + q[1..];
    forall i | 0 <= i < |r| - 1 ensures Edge(g, r[i], r[i + 1]) {
      if i < |p| - 1 {
        assert r[i] == p[i] && r[i + 1] == p[i + 1];
      } else {
        assert r[i] == q[i - |p| + 1] && r[i + 1] == q[i - |p| + 2];
      }
    }
    assert IsPath(g, r) && r[0] == x && r[|r| - 1] == z;
  }

  lemma DependsOnTransitive(g: Graph, x: Persona, y: Persona, z: Persona)
    requires DependsOn(g, y, x) && DependsOn(g, z, y)
    ensures DependsOn(g, z, x)
  {
    if x != y && y != z {
      PrecedesTransitive(g, x, y, z);
    }
  }

  /** Any set that holds x and is closed under edges holds everything that
      depends on x. */
  lemma {:induction false} ClosedSetHoldsPath(g: Graph, s: set<Persona>, p: seq<Persona>)
    requires IsPath(g, p) && p[0] in s
    requires forall a, b :: a in s && Edge(g, a, b) ==> b in s
    ensures p[|p| - 1] in s
  {
    if |p| > 1 {
      assert Edge(g, p[0], p[0 + 1]);
      var rest := p[1..];
      forall i | 0 <= i < |rest| - 1 ensures Edge(g, rest[i], rest[i + 1]) {
        assert Edge(g, p[i + 1], p[i + 1 + 1]);
      }
      ClosedSetHoldsPath(g, s, rest);
    }
  }

  lemma ClosedSetHoldsDownstream(g: Graph, s: set<Persona>, x: Persona)
    requires x in s
    requires forall a, b :: a in s && Edge(g, a, b) ==> b in s
    ensures Downstream(g, x) <= s
  {
    forall y | y in Downstream(g, x) ensures y in s {
      if y != x {
        var p :| IsPath(g, p) && |p| >= 2 && p[0] == x && p[|p| - 1] == y;
        ClosedSetHoldsPath(g, s, p);
      }
    }
  }

  /** Reverse adjacency, built handler by handler as the code does: the map
      lists, for each node, who depends on it. */
  method BuildDependents(g: Graph) returns (dependents: map<Persona, seq<Persona>>)
    ensures forall x, y :: (x in dependents && y in dependents[x]) <==> Edge(g, x, y)
  {
    dependents := map[];
    var todo := g.Keys;
    while todo != {}
      invariant todo <= g.Keys
      invariant forall x, y :: (x in dependents && y in dependents[x]) <==> (Edge(g, x, y) && y !in todo)
      decreases |todo|
    {
      var h :| h in todo;
      var deps := g[h];
      for i := 0 to |deps|
        invariant forall x, y :: (x in dependents && y in dependents[x]) <==>
                                 ((Edge(g, x, y) && y !in todo) || (y == h && x in deps[..i]))
      {
        var dep := deps[i];
        var known := if dep in dependents then dependents[dep] else [];
        dependents := dependents[dep := known + [h]];
        assert deps[..i + 1] == deps[..i] + [dep];
      }
      assert deps[..|deps|] == deps;
      todo := todo - {h};
    }
  }

  /** One BFS expansion: every unvisited neighbour is marked and enqueued. */
  method Expand(out: seq<Persona>, visited: set<Persona>, queue: seq<Persona>)
    returns (visited': set<Persona>, queue': seq<Persona>)
    ensures visited' == visited + (set y | y in out)
    ensures queue <= queue'
    ensures forall y :: y in queue' <==> y in queue || (y in out && y !in visited)
    ensures visited' == visited ==> queue' == queue
  {
    visited', queue' := visited, queue;
    for i := 0 to |out|
      invariant visited' == visited + (set y | y in out[..i])
      invariant queue <= queue'
      invariant forall y :: y in queue' <==> y in queue || (y in out[..i] && y !in visited)
      invariant visited' == visited ==> queue' == queue
    {
      assert out[..i + 1] == out[..i] + [out[i]];
      if out[i] !in visited' {
        visited' := visited' + {out[i]};
        queue' := queue' + [out[i]];
      }
    }
    assert out[..|out|] == out;
  }

  /** Breadth-first search for every persona that transitively depends on
      the given one. It terminates on cyclic graphs too, because a node
      enters the queue only when it is first visited. */
  method DownstreamOf(g: Graph, persona: Persona) returns (visited: set<Persona>)
    ensures visited == Downstream(g, persona)
  {
    var dependents := BuildDependents(g);
    visited := {persona};
    var queue := [persona];
    ghost var all := g.Keys + {persona};
    while |queue| > 0
      invariant persona in visited && visited <= all
      invariant forall q :: q in queue ==> q in visited
      invariant forall y :: y in visited ==> DependsOn(g, y, persona)
      invariant forall a, b :: a in visited && a !in queue && Edge(g, a, b) ==> b in visited
      decreases |all - visited|, |queue|
    {
      var current := queue[0];
      var out := if current in dependents then dependents[current] else [];
      ghost var before := visited;
      assert queue == [current] + queue[1..];
      OutIsDownstream(g, persona, current, out);
      visited, queue := Expand(out, visited, queue[1..]);
      if visited != before {
        CardinalityDrops(all - visited, all - before);
      }
    }
    ClosedSetHoldsDownstream(g, visited, persona);
    forall y | y in visited ensures y in Downstream(g, persona) {
      DownstreamIff(g, persona, y);
    }
  }

  lemma OutIsDownstream(g: Graph, root: Persona, current: Persona, out: seq<Persona>)
    requires DependsOn(g, current, root)
    requires forall y :: y in out ==> Edge(g, current, y)
    ensures forall y :: y in out ==> y in g && DependsOn(g, y, root)
  {
    forall y | y in out ensures y in g && DependsOn(g, y, root) {
      EdgePrecedes(g, current, y);
      DependsOnTransitive(g, root, current, y);
    }
  }

  // ---------------------------------------------------------------------
  // Retry invalidation
  // ---------------------------------------------------------------------

  predicate InBarrier(d: WorkflowDef, phase: Persona) {
    d.synchronousFeedback && phase in d.consolidatedReviewers
  }

  /** The personas a retry of `phase` must clear: its dependents and, when it
      is a member of the review barrier, the dependents of every member. */
  ghost function Invalidated(d: WorkflowDef, phase: Persona): set<Persona> {
    if InBarrier(d, phase)
    then set r, y | r in d.consolidatedReviewers && y in Downstream(d.graph, r) :: y
    else Downstream(d.graph, phase)
  }

  method PersonasToInvalidateFor(d: WorkflowDef, phase: Persona) returns (seen: set<Persona>)
    ensures seen == Invalidated(d, phase)
  {
    seen := DownstreamOf(d.graph, phase);
    if !d.synchronousFeedback || phase !in d.consolidatedReviewers {
      return;
    }
    var reviewers := d.consolidatedReviewers;
    for i := 0 to |reviewers|
      invariant forall y :: y in seen <==>
        y in Downstream(d.graph, phase) || exists r :: r in reviewers[..i] && y in Downstream(d.graph, r)
    {
      assert reviewers[..i + 1] == reviewers[..i] + [reviewers[i]];
      if reviewers[i] != phase {
        var more := DownstreamOf(d.graph, reviewers[i]);
        seen := seen + more;
      }
    }
    assert reviewers[..|reviewers|] == reviewers;
  }

  /** Where a retry of the phase starts: the phase, and with synchronous
      feedback the whole barrier when the phase is one of its reviewers. */
  predicate StartsAt(d: WorkflowDef, phase: Persona, r: Persona) {
    r == phase || (d.synchronousFeedback && phase in d.consolidatedReviewers && r in d.consolidatedReviewers)
  }

  /** The invalidated set is the least set that holds where the retry starts
      and is closed under dependents; nothing stale survives and nothing else
      is thrown away. */
  lemma InvalidatedIsLeastClosed(d: WorkflowDef, phase: Persona)
    ensures forall r :: StartsAt(d, phase, r) ==> r in Invalidated(d, phase)
    ensures forall a, b :: a in Invalidated(d, phase) && Edge(d.graph, a, b) ==> b in Invalidated(d, phase)
    ensures forall s: set<Persona> ::
      (forall r :: StartsAt(d, phase, r) ==> r in s) && (forall a, b :: a in s && Edge(d.graph, a, b) ==> b in s)
      ==> Invalidated(d, phase) <= s
  {
    forall r ensures r in Downstream(d.graph, r) {
      DownstreamIff(d.graph, r, r);
    }
    forall r | StartsAt(d, phase, r) ensures r in Invalidated(d, phase) {
      assert r in Downstream(d.graph, r);
    }
    forall a, b | a in Invalidated(d, phase) && Edge(d.graph, a, b) ensures b in Invalidated(d, phase) {
      var r :| a in Downstream(d.graph, r) && (InBarrier(d, phase) ==> r in d.consolidatedReviewers)
               && (!InBarrier(d, phase) ==> r == phase);
      EdgePrecedes(d.graph, a, b);
      DependsOnTransitive(d.graph, r, a, b);
      DownstreamIff(d.graph, r, b);
    }
    forall s: set<Persona> |
      (forall r :: StartsAt(d, phase, r) ==> r in s) && (forall a, b :: a in s && Edge(d.graph, a, b) ==> b in s)
      ensures Invalidated(d, phase) <= s
    {
      forall r | r in s ensures Downstream(d.graph, r) <= s {
        ClosedSetHoldsDownstream(d.graph, s, r);
      }
      forall y | y in Invalidated(d, phase) ensures y in s {
        var r :| y in Downstream(d.graph, r) && StartsAt(d, phase, r);
      }
    }
  }

  // ---------------------------------------------------------------------
  // Removing a handler
  // ---------------------------------------------------------------------

  function Without(s: seq<Persona>, h: Persona): (r: seq<Persona>)
    ensures forall x :: x in r <==> x in s && x != h
  {
    if s == [] then []
    else
      var last := s[|s| - 1];
      assert s == s[..|s| - 1] + [last];
      Without(s[..|s| - 1], h) + (if last == h then [] else [last])
  }

  /** Keeps the first occurrence of every element. */
  function Dedup(s: seq<Persona>): (r: seq<Persona>)
    ensures forall x :: x in r <==> x in s
    ensures forall i, j :: 0 <= i < j < |r| ==> r[i] != r[j]
  {
    if s == [] then []
    else
      var last := s[|s| - 1];
      assert s == s[..|s| - 1] + [last];
      Dedup(s[..|s| - 1]) + (if last in s[..|s| - 1] then [] else [last])
  }

  /** A dependent of h inherits the predecessors of h. */
  function Rewire(deps: seq<Persona>, h: Persona, preds: seq<Persona>): seq<Persona> {
    if h in deps then Dedup(Without(deps, h) + preds) else Without(deps, h)
  }

  function Contract(g: Graph, h: Persona): Graph
    requires h in g
  {
    map k | k in g && k != h :: Rewire(g[k], h, g[h])
  }

  function RemoveHandler(d: WorkflowDef, h: Persona): WorkflowDef {
    if h !in d.graph then d
    else d.(required := Without(d.required, h), graph := Contract(d.graph, h))
  }

  method DedupLoop(deps: seq<Persona>) returns (deduped: seq<Persona>)
    ensures deduped == Dedup(deps)
  {
    var seen: set<Persona> := {};
    deduped := [];
    for i := 0 to |deps|
      invariant deduped == Dedup(deps[..i])
      invariant forall x :: x in seen <==> x in deps[..i]
    {
      assert deps[..i + 1][..i] == deps[..i];
      if deps[i] !in seen {
        seen := seen + {deps[i]};
        deduped := deduped + [deps[i]];
      }
    }
    assert deps[..|deps|] == deps;
  }

  method RewireLoop(deps: seq<Persona>, handler: Persona, preds: seq<Persona>) returns (newDeps: seq<Persona>)
    ensures newDeps == Rewire(deps, handler, preds)
  {
    newDeps := [];
    var replaced := false;
    for i := 0 to |deps|
      invariant newDeps == Without(deps[..i], handler)
      invariant replaced <==> handler in deps[..i]
    {
      assert deps[..i + 1][..i] == deps[..i];
      if deps[i] == handler {
        replaced := true;
      } else {
        newDeps := newDeps + [deps[i]];
      }
    }
    assert deps[..|deps|] == deps;
    hide Without, Dedup;
    if replaced {
      newDeps := DedupLoop(newDeps + preds);
    } else {
      assert handler !in deps;
    }
  }

  method WithoutHandler(def: WorkflowDef, handler: Persona) returns (out: WorkflowDef)
    ensures out == RemoveHandler(def, handler)
  {
    if handler !in def.graph {
      return def;
    }
    var preds := def.graph[handler];
    var newReq: seq<Persona> := [];
    for i := 0 to |def.required|
      invariant newReq == Without(def.required[..i], handler)
    {
      assert def.required[..i + 1][..i] == def.required[..i];
      if def.required[i] != handler {
        newReq := newReq + [def.required[i]];
      }
    }
    assert def.required[..|def.required|] == def.required;
    var newGraph: Graph := map[];
    var todo := def.graph.Keys;
    while todo != {}
      invariant todo <= def.graph.Keys
      invariant newGraph.Keys == def.graph.Keys - todo - {handler}
      invariant forall k :: k in newGraph ==> newGraph[k] == Rewire(def.graph[k], handler, preds)
      decreases |todo|
    {
      var h :| h in todo;
      todo := todo - {h};
      if h != handler {
        var newDeps := RewireLoop(def.graph[h], handler, preds);
        newGraph := newGraph[h := newDeps];
      }
    }
    assert newGraph == Contract(def.graph, handler);
    out := def.(required := newReq, graph := newGraph);
  }

  lemma ContractEdge(g: Graph, h: Persona, x: Persona, y: Persona)
    requires h in g
    ensures Edge(Contract(g, h), x, y) <==>
      y != h && ((x != h && Edge(g, x, y)) || (Edge(g, h, y) && Edge(g, x, h)))
  {}

  /** Every path of the old graph between nodes other than h shortens to one
      of the new graph, by skipping h. */
  lemma {:induction false} ContractKeepsPath(g: Graph, h: Persona, p: seq<Persona>)
    requires h in g && IsPath(g, p) && |p| >= 2
    requires p[0] != h && p[|p| - 1] != h
    ensures Precedes(Contract(g, h), p[0], p[|p| - 1])
    decreases |p|
  {
    var c := Contract(g, h);
    assert Edge(g, p[0], p[0 + 1]);
    var rest := p[1..];
    assert IsPath(g, rest) by {
      forall i | 0 <= i < |rest| - 1 ensures Edge(g, rest[i], rest[i + 1]) {
        assert Edge(g, p[i + 1], p[i + 1 + 1]);
      }
    }
    if p[1] != h {
      ContractEdge(g, h, p[0], p[1]);
      EdgePrecedes(c, p[0], p[1]);
      if |p| > 2 {
        ContractKeepsPath(g, h, rest);
        PrecedesTransitive(c, p[0], p[1], p[|p| - 1]);
      }
    } else {
      assert Edge(g, p[1], p[1 + 1]);
      var tail := p[2..];
      assert IsPath(g, tail) by {
        forall i | 0 <= i < |tail| - 1 ensures Edge(g, tail[i], tail[i + 1]) {
          assert Edge(g, p[i + 2], p[i + 2 + 1]);
        }
      }
      if p[2] == h {
        var shorter := [p[0]] + tail;
        assert IsPath(g, shorter) by {
          forall i | 0 <= i < |shorter| - 1 ensures Edge(g, shorter[i], shorter[i + 1]) {
            if i > 0 {
              assert Edge(g, tail[i - 1], tail[i - 1 + 1]);
            }
          }
        }
        ContractKeepsPath(g, h, shorter);
      } else {
        ContractEdge(g, h, p[0], p[2]);
        EdgePrecedes(c, p[0], p[2]);
        if |p| > 3 {
          ContractKeepsPath(g, h, tail);
          PrecedesTransitive(c, p[0], p[2], p[|p| - 1]);
        }
      }
    }
  }

  /** Every path of the new graph stands for one of the old graph. */
  lemma {:induction false} ContractAddsNoPath(g: Graph, h: Persona, p: seq<Persona>)
    requires h in g && IsPath(Contract(g, h), p) && |p| >= 2
    ensures Precedes(g, p[0], p[|p| - 1])
    decreases |p|
  {
    var c := Contract(g, h);
    assert Edge(c, p[0], p[0 + 1]);
    ContractEdge(g, h, p[0], p[1]);
    if Edge(g, p[0], p[1]) {
      EdgePrecedes(g, p[0], p[1]);
    } else {
      EdgePrecedes(g, p[0], h);
      EdgePrecedes(g, h, p[1]);
      PrecedesTransitive(g, p[0], h, p[1]);
    }
    if |p| > 2 {
      var rest := p[1..];
      assert IsPath(c, rest) by {
        forall i | 0 <= i < |rest| - 1 ensures Edge(c, rest[i], rest[i + 1]) {
          assert Edge(c, p[i + 1], p[i + 1 + 1]);
        }
      }
      ContractAddsNoPath(g, h, rest);
      PrecedesTransitive(g, p[0], p[1], p[|p| - 1]);
    }
  }

  /** Removing a handler keeps the precedence order of everything else, in
      both directions, on every graph. */
  lemma RemoveHandlerKeepsOrder(d: WorkflowDef, h: Persona, x: Persona, y: Persona)
    requires x != h && y != h
    ensures Precedes(RemoveHandler(d, h).graph, x, y) <==> Precedes(d.graph, x, y)
  {
    if h in d.graph {
      var c := Contract(d.graph, h);
      if Precedes(d.graph, x, y) {
        var p :| IsPath(d.graph, p) && |p| >= 2 && p[0] == x && p[|p| - 1] == y;
        ContractKeepsPath(d.graph, h, p);
      }
      if Precedes(c, x, y) {
        var p :| IsPath(c, p) && |p| >= 2 && p[0] == x && p[|p| - 1] == y;
        ContractAddsNoPath(d.graph, h, p);
      }
    }
  }

  lemma RemoveHandlerKeepsAcyclic(d: WorkflowDef, h: Persona)
    requires Acyclic(d.graph)
    ensures Acyclic(RemoveHandler(d, h).graph)
  {
    var c := RemoveHandler(d, h).graph;
    forall x ensures !Precedes(c, x, x) {
      if x != h {
        RemoveHandlerKeepsOrder(d, h, x, x);
      } else if h in d.graph && Precedes(c, x, x) {
        PathEndIsKey(c, x, x);
        assert false;
      }
    }
  }

  /** Downstream sets lose exactly the removed handler. */
  lemma RemoveHandlerDownstream(d: WorkflowDef, h: Persona, x: Persona)
    requires x != h
    ensures Downstream(RemoveHandler(d, h).graph, x) == Downstream(d.graph, x) - {h}
  {
    var c := RemoveHandler(d, h).graph;
    forall y ensures y in Downstream(c, x) <==> y in Downstream(d.graph, x) - {h} {
      DownstreamIff(c, x, y);
      DownstreamIff(d.graph, x, y);
      if y != h {
        RemoveHandlerKeepsOrder(d, h, x, y);
      } else if Precedes(c, x, y) {
        PathEndIsKey(c, x, y);
        assert false;
      }
    }
  }

  // ---------------------------------------------------------------------
  // Adding the stale-reference sweep
  // ---------------------------------------------------------------------

  const Sweep := "pr-stale-reference"
  const SweepAfter := "pr-jira-context"
  const SweepBefore := "pr-consolidator"

  function AddSweep(d: WorkflowDef): WorkflowDef {
    if SweepBefore !in d.graph || Sweep in d.graph then d
    else d.(required := d.required + [Sweep],
            graph := d.graph[SweepBefore := d.graph[SweepBefore] + [Sweep]][Sweep := [SweepAfter]])
  }

  method WithStaleReferenceSweep(def: WorkflowDef) returns (out: WorkflowDef)
    ensures out == AddSweep(def)
  {
    if SweepBefore !in def.graph {
      return def;
    }
    if Sweep in def.graph {
      return def;
    }
    var consDeps := def.graph[SweepBefore];
    var newGraph: Graph := map[];
    var todo := def.graph.Keys;
    while todo != {}
      invariant todo <= def.graph.Keys
      invariant newGraph.Keys == def.graph.Keys - todo
      invariant forall k :: k in newGraph ==>
        newGraph[k] == if k == SweepBefore then consDeps + [Sweep] else def.graph[k]
      decreases |todo|
    {
      var h :| h in todo;
      todo := todo - {h};
      newGraph := newGraph[h := if h == SweepBefore then consDeps + [Sweep] else def.graph[h]];
    }
    newGraph := newGraph[Sweep := [SweepAfter]];
    out := def.(required := def.required + [Sweep], graph := newGraph);
  }

  /** What adding the sweep does: it is required, it waits for the context, and
      the consolidator waits for it; every other edge stays as it was. */
  lemma SweepAdded(d: WorkflowDef, x: Persona, y: Persona)
    requires SweepBefore in d.graph && Sweep !in d.graph
    ensures AddSweep(d).required == d.required + [Sweep]
    ensures Edge(AddSweep(d).graph, x, y) <==>
      Edge(d.graph, x, y) || (x == Sweep && y == SweepBefore) || (x == SweepAfter && y == Sweep)
  {
    assert Sweep != SweepBefore;
  }

  /** Without takes out every occurrence and keeps the order of the rest. */
  lemma {:induction false} WithoutConcat(a: seq<Persona>, b: seq<Persona>, h: Persona)
    ensures Without(a + b, h) == Without(a, h) + Without(b, h)
  {
    if b == [] {
      assert a + b == a;
    } else {
      var init, last := b[..|b| - 1], b[|b| - 1];
      WithoutConcat(a, init, h);
      assert a + b == (a + init) + [last] && b == init + [last];
      WithoutSnoc(a + init, last, h);
      WithoutSnoc(init, last, h);
      hide Without;
    }
  }

  lemma WithoutSnoc(init: seq<Persona>, x: Persona, h: Persona)
    ensures Without(init + [x], h) == Without(init, h) + if x == h then [] else [x]
  {
    assert (init + [x])[..|init|] == init;
  }

  /** The sweep is added: the consolidator is there to join on it, and the
      graph does not define it yet. */
  predicate TakesSweep(d: WorkflowDef) {
    SweepBefore in d.graph && Sweep !in d.graph
  }

  /** y waits for the sweep once it is added: it is the consolidator, or it
      named the sweep among its predecessors before. */
  predicate JoinsSweep(d: WorkflowDef, y: Persona) {
    y == SweepBefore || Edge(d.graph, Sweep, y)
  }

  lemma {:induction false} WithoutAbsent(s: seq<Persona>, h: Persona)
    requires h !in s
    ensures Without(s, h) == s
  {
    if s != [] {
      assert s == s[..|s| - 1] + [s[|s| - 1]];
      WithoutAbsent(s[..|s| - 1], h);
    }
  }

  /** What removing a handler leaves: the required list and the nodes without
      it, every node that did not name it as it was, every node that did
      without duplicates, and nothing else changed. */
  lemma HandlerGone(d: WorkflowDef, h: Persona, k: Persona)
    requires h in d.graph
    ensures var d' := RemoveHandler(d, h);
      && d'.(required := d.required, graph := d.graph) == d
      && (k in d'.required <==> k in d.required && k != h)
      && (h !in d.required ==> d'.required == d.required)
      && (k in d'.graph <==> k in d.graph && k != h)
      && (k in d'.graph ==>
            if h in d.graph[k] then forall i, j :: 0 <= i < j < |d'.graph[k]| ==> d'.graph[k][i] != d'.graph[k][j]
            else d'.graph[k] == d.graph[k])
  {
    if h !in d.required {
      WithoutAbsent(d.required, h);
    }
    if k in d.graph && h !in d.graph[k] {
      WithoutAbsent(d.graph[k], h);
    }
  }

  /** Edges of the round trip: the original ones out of other nodes, plus the
      shortcuts from the sweep's predecessor to whoever joins on the sweep. */
  lemma SweepRoundTripEdge(d: WorkflowDef, x: Persona, y: Persona)
    requires TakesSweep(d)
    ensures Edge(RemoveHandler(AddSweep(d), Sweep).graph, x, y) <==>
      x != Sweep && (Edge(d.graph, x, y) || (x == SweepAfter && JoinsSweep(d, y)))
  {
    ContractEdge(AddSweep(d).graph, Sweep, x, y);
  }

  lemma {:induction false} RoundTripPathIsOld(d: WorkflowDef, p: seq<Persona>)
    requires TakesSweep(d) && forall y :: JoinsSweep(d, y) ==> Precedes(d.graph, SweepAfter, y)
    requires IsPath(RemoveHandler(AddSweep(d), Sweep).graph, p) && |p| >= 2
    ensures Precedes(d.graph, p[0], p[|p| - 1])
    decreases |p|
  {
    hide RemoveHandler, AddSweep;
    var r := RemoveHandler(AddSweep(d), Sweep).graph;
    assert Edge(r, p[0], p[0 + 1]);
    SweepRoundTripEdge(d, p[0], p[1]);
    if Edge(d.graph, p[0], p[1]) {
      EdgePrecedes(d.graph, p[0], p[1]);
    }
    if |p| > 2 {
      var rest := p[1..];
      assert IsPath(r, rest) by {
        forall i | 0 <= i < |rest| - 1 ensures Edge(r, rest[i], rest[i + 1]) {
          assert Edge(r, p[i + 1], p[i + 1 + 1]);
        }
      }
      RoundTripPathIsOld(d, rest);
      PrecedesTransitive(d.graph, p[0], p[1], p[|p| - 1]);
    }
  }

  lemma OldPathIsRoundTrip(d: WorkflowDef, x: Persona, y: Persona)
    requires TakesSweep(d) && x != Sweep && Precedes(d.graph, x, y)
    ensures Precedes(RemoveHandler(AddSweep(d), Sweep).graph, x, y)
  {
    hide RemoveHandler, AddSweep;
    var r := RemoveHandler(AddSweep(d), Sweep).graph;
    var p :| IsPath(d.graph, p) && |p| >= 2 && p[0] == x && p[|p| - 1] == y;
    forall i | 0 <= i < |p| - 1 ensures Edge(r, p[i], p[i + 1]) {
      if i > 0 {
        assert Edge(d.graph, p[i - 1], p[i - 1 + 1]);
      }
      SweepRoundTripEdge(d, p[i], p[i + 1]);
    }
    assert IsPath(r, p);
  }

  /** Adding the sweep and removing it again takes it out of the required list
      if it was there, and restores the precedence order of all other nodes
      exactly when the sweep's predecessor already preceded whoever joins on
      the sweep: the consolidator, and any node that named it before. */
  lemma SweepRoundTrip(d: WorkflowDef)
    requires TakesSweep(d)
    ensures RemoveHandler(AddSweep(d), Sweep).required == Without(d.required, Sweep)
    ensures RemoveHandler(AddSweep(d), Sweep).required == d.required <==> Sweep !in d.required
    ensures (forall y :: JoinsSweep(d, y) ==> Precedes(d.graph, SweepAfter, y)) <==>
      forall x, y :: x != Sweep ==>
        (Precedes(RemoveHandler(AddSweep(d), Sweep).graph, x, y) <==> Precedes(d.graph, x, y))
  {
    var r := RemoveHandler(AddSweep(d), Sweep).graph;
    assert (d.required + [Sweep])[..|d.required|] == d.required;
    if Sweep !in d.required {
      WithoutAbsent(d.required, Sweep);
    }
    RoundTripOrder(d);
  }

  lemma RoundTripOrder(d: WorkflowDef)
    requires TakesSweep(d)
    ensures var r := RemoveHandler(AddSweep(d), Sweep).graph;
      (forall y :: JoinsSweep(d, y) ==> Precedes(d.graph, SweepAfter, y)) <==>
        forall x, y :: x != Sweep ==> (Precedes(r, x, y) <==> Precedes(d.graph, x, y))
  {
    var r := RemoveHandler(AddSweep(d), Sweep).graph;
    hide RemoveHandler, AddSweep, JoinsSweep;
    if forall y :: JoinsSweep(d, y) ==> Precedes(d.graph, SweepAfter, y) {
      forall x, y | x != Sweep ensures Precedes(r, x, y) <==> Precedes(d.graph, x, y) {
        if Precedes(r, x, y) {
          var p :| IsPath(r, p) && |p| >= 2 && p[0] == x && p[|p| - 1] == y;
          RoundTripPathIsOld(d, p);
        }
        if Precedes(d.graph, x, y) {
          OldPathIsRoundTrip(d, x, y);
        }
      }
    } else {
      var y :| JoinsSweep(d, y) && !Precedes(d.graph, SweepAfter, y);
      SweepRoundTripEdge(d, SweepAfter, y);
      EdgePrecedes(r, SweepAfter, y);
    }
  }
}
