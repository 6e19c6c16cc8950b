/** The per-(handler, correlation) dispatch queue. In place it is a list kept
    in priority order; it refines a list in arrival order from which the
    earliest item of the most urgent priority is taken. */
module DispatchQueue {
  import opened Events

  /** Lower priority values are more urgent. The ticket tells repeated pushes
      of one event apart. */
  datatype Item = Item(priority: int, env: Envelope, chainDepth: int, ticket: nat)

  // ---------------------------------------------------------------------
  // The list in priority order
  // ---------------------------------------------------------------------

  /** The first position at or after i that holds a less urgent item. */
  function Position(items: seq<Item>, x: Item, i: nat): (pos: nat)
    requires i <= |items|
    ensures i <= pos <= |items|
    ensures forall k :: i <= k < pos ==> items[k].priority <= x.priority
    ensures pos < |items| ==> x.priority < items[pos].priority
    decreases |items| - i
  {
    if i == |items| || x.priority < items[i].priority then i else Position(items, x, i + 1)
  }

  function Inserted(items: seq<Item>, x: Item): seq<Item> {
    var pos := Position(items, x, 0);
    items[..pos] + [x] + items[pos..]
  }

  function Head(items: seq<Item>): Option<Item> {
    if items == [] then None else Some(items[0])
  }

  function Rest(items: seq<Item>): seq<Item> {
    if items == [] then [] else items[1..]
  }

  class Queue {
    var items: seq<Item>
    var draining: bool

    constructor ()
      ensures items == [] && !draining
    {
      items := [];
      draining := false;
    }

    method Push(item: Item)
      modifies this`items
      ensures items == Inserted(old(items), item)
    {
      var pos := |items|;
      var i := 0;
      while i < |items|
        invariant i <= |items| && pos == |items|
        invariant Position(items, item, 0) == Position(items, item, i)
      {
        if item.priority < items[i].priority {
          pos := i;
          break;
        }
        i := i + 1;
      }
      assert pos == Position(items, item, 0);
      ghost var before := items;
      items := items + [item];
      items := items[..pos + 1] + items[pos..|items| - 1];
      items := items[pos := item];
      assert items == before[..pos] + [item] + before[pos..];
    }

    method Pop() returns (item: Option<Item>)
      modifies this`items
      ensures item == Head(old(items)) && items == Rest(old(items))
    {
      if |items| == 0 {
        return None;
      }
      item := Some(items[0]);
      items := items[1..];
    }
  }

  class Queues {
    var queues: map<string, Queue>

    constructor ()
      ensures queues == map[]
    {
      queues := map[];
    }

    /** One queue per key: the same object on every call. */
    method GetOrCreate(key: string) returns (q: Queue)
      modifies this
      ensures key in queues && q == queues[key]
      ensures key in old(queues) ==> queues == old(queues)
      ensures key !in old(queues) ==>
                fresh(q) && q.items == [] && !q.draining && queues == old(queues)[key := q]
    {
      if key !in queues {
        var created := new Queue();
        queues := queues[key := created];
      }
      q := queues[key];
    }
  }

  // ---------------------------------------------------------------------
  // The list in arrival order
  // ---------------------------------------------------------------------

  /** The items of one priority, in list order. */
  function Level(items: seq<Item>, p: int): seq<Item> {
    if items == [] then []
    else
      var last := items[|items| - 1];
      Level(items[..|items| - 1], p) + if last.priority == p then [last] else []
  }

  predicate Sorted(items: seq<Item>) {
    forall i, j :: 0 <= i < j < |items| ==> items[i].priority <= items[j].priority
  }

  /** r is the stable sort of s: in priority order, each priority in the order
      of s. */
  ghost predicate StableSortOf(r: seq<Item>, s: seq<Item>) {
    Sorted(r) && forall p :: Level(r, p) == Level(s, p)
  }

  predicate MostUrgent(s: seq<Item>, i: nat) {
    && i < |s|
    && (forall k :: 0 <= k < |s| ==> s[i].priority <= s[k].priority)
    && (forall k :: 0 <= k < i ==> s[i].priority < s[k].priority)
  }

  /** The earliest of the most urgent items. */
  function Earliest(s: seq<Item>): (i: nat)
    requires s != []
    ensures MostUrgent(s, i)
  {
    if |s| == 1 then 0
    else
      var i := Earliest(s[..|s| - 1]);
      if s[|s| - 1].priority < s[i].priority then |s| - 1 else i
  }

  function Taken(s: seq<Item>): Option<Item> {
    if s == [] then None else Some(s[Earliest(s)])
  }

  function Left(s: seq<Item>): seq<Item> {
    if s == [] then [] else s[..Earliest(s)] + s[Earliest(s) + 1..]
  }

  // ---------------------------------------------------------------------
  // Refinement
  // ---------------------------------------------------------------------

  lemma {:induction false} LevelConcat(a: seq<Item>, b: seq<Item>, p: int)
    ensures Level(a + b, p) == Level(a, p) + Level(b, p)
  {
    if b == [] {
      assert a + b == a;
    } else {
      LevelConcat(a, b[..|b| - 1], p);
      assert (a + b)[..|a + b| - 1] == a + b[..|b| - 1];
    }
  }

  lemma {:induction false} LevelEmpty(s: seq<Item>, p: int)
    requires forall x :: x in s ==> x.priority != p
    ensures Level(s, p) == []
  {
    if s != [] {
      LevelEmpty(s[..|s| - 1], p);
    }
  }

  lemma {:induction false} InLevel(s: seq<Item>, x: Item)
    ensures x in s <==> x in Level(s, x.priority)
  {
    if s != [] {
      InLevel(s[..|s| - 1], x);
      assert s == s[..|s| - 1] + [s[|s| - 1]];
    }
  }

  lemma InsertedSorted(r: seq<Item>, x: Item)
    requires Sorted(r)
    ensures Sorted(Inserted(r, x))
  {}

  lemma InsertedLevel(r: seq<Item>, x: Item, p: int)
    requires Sorted(r)
    ensures Level(Inserted(r, x), p) == Level(r, p) + Level([x], p)
  {
    hide Level, Position;
    var pos := Position(r, x, 0);
    LevelConcat(r[..pos] + [x], r[pos..], p);
    LevelConcat(r[..pos], [x], p);
    LevelConcat(r[..pos], r[pos..], p);
    assert r[..pos] + r[pos..] == r;
    if p == x.priority {
      LevelEmpty(r[pos..], p);
    } else {
      LevelEmpty([x], p);
    }
  }

  lemma PushRefines(r: seq<Item>, s: seq<Item>, x: Item)
    requires StableSortOf(r, s)
    ensures StableSortOf(Inserted(r, x), s + [x])
  {
    hide Level, Sorted, Inserted;
    InsertedSorted(r, x);
    forall p ensures Level(Inserted(r, x), p) == Level(s + [x], p) {
      InsertedLevel(r, x, p);
      LevelConcat(s, [x], p);
    }
  }

  /** The item at i leads its level when no earlier item shares it. */
  lemma LevelLeads(s: seq<Item>, i: nat, p: int)
    requires i < |s| && forall k :: 0 <= k < i ==> s[k].priority != s[i].priority
    ensures var rest := s[..i] + s[i + 1..];
      Level(s, p) == if p == s[i].priority then [s[i]] + Level(rest, p) else Level(rest, p)
  {
    assert s == s[..i] + [s[i]] + s[i + 1..];
    LevelConcat(s[..i] + [s[i]], s[i + 1..], p);
    LevelConcat(s[..i], [s[i]], p);
    LevelConcat(s[..i], s[i + 1..], p);
    if p == s[i].priority {
      LevelEmpty(s[..i], p);
    } else {
      LevelEmpty([s[i]], p);
    }
  }

  lemma SameItems(r: seq<Item>, s: seq<Item>, x: Item)
    requires StableSortOf(r, s)
    ensures x in r <==> x in s
  {
    InLevel(r, x);
    InLevel(s, x);
    assert Level(r, x.priority) == Level(s, x.priority);
  }

  /** The head of the stable sort is the earliest most urgent item. */
  lemma HeadIsEarliest(r: seq<Item>, s: seq<Item>)
    requires StableSortOf(r, s) && r != []
    ensures s != [] && r[0] == s[Earliest(s)]
  {
    SameItems(r, s, r[0]);
    var i := Earliest(s);
    var p := s[i].priority;
    SameItems(r, s, s[i]);
    assert Level(r, p) == Level(s, p);
    hide Level;
    assert r[0].priority == p;
    LevelLeads(r, 0, p);
    LevelLeads(s, i, p);
    assert Level(r, p)[0] == r[0] && Level(s, p)[0] == s[i];
  }

  lemma RestLevel(r: seq<Item>, s: seq<Item>, p: int)
    requires r != [] && s != [] && r[0] == s[Earliest(s)] && Level(r, p) == Level(s, p)
    ensures Level(Rest(r), p) == Level(Left(s), p)
  {
    hide Level;
    LevelLeads(r, 0, p);
    LevelLeads(s, Earliest(s), p);
    assert r[..0] + r[1..] == Rest(r);
    hide Left, Rest, Earliest;
    if p == r[0].priority {
      SameTails(r[0], Level(Rest(r), p), Level(Left(s), p));
    }
  }

  lemma SameTails(x: Item, a: seq<Item>, b: seq<Item>)
    requires [x] + a == [x] + b
    ensures a == b
  {
    assert a == ([x] + a)[1..] && b == ([x] + b)[1..];
  }

  lemma PopRefines(r: seq<Item>, s: seq<Item>)
    requires StableSortOf(r, s)
    ensures Head(r) == Taken(s) && StableSortOf(Rest(r), Left(s))
  {
    if s != [] {
      SameItems(r, s, s[0]);
    }
    if r != [] {
      HeadIsEarliest(r, s);
      forall p ensures Level(Rest(r), p) == Level(Left(s), p) {
        RestLevel(r, s, p);
      }
    }
  }

  datatype Op = Push(item: Item) | Pop

  /** What the queue hands out over a run of operations, and what is left. */
  function RunQueue(r: seq<Item>, ops: seq<Op>): (seq<Option<Item>>, seq<Item>)
    decreases |ops|
  {
    if ops == [] then ([], r)
    else match ops[0]
      case Push(x) => RunQueue(Inserted(r, x), ops[1..])
      case Pop => var (out, left) := RunQueue(Rest(r), ops[1..]); ([Head(r)] + out, left)
  }

  function RunArrivals(s: seq<Item>, ops: seq<Op>): (seq<Option<Item>>, seq<Item>)
    decreases |ops|
  {
    if ops == [] then ([], s)
    else match ops[0]
      case Push(x) => RunArrivals(s + [x], ops[1..])
      case Pop => var (out, left) := RunArrivals(Left(s), ops[1..]); ([Taken(s)] + out, left)
  }

  /** For any interleaving of pushes and pops the queue hands out what the
      arrival list does, and holds the stable sort of what that one holds. */
  lemma {:induction false} QueueRefinesArrivals(r: seq<Item>, s: seq<Item>, ops: seq<Op>)
    requires StableSortOf(r, s)
    ensures RunQueue(r, ops).0 == RunArrivals(s, ops).0
    ensures StableSortOf(RunQueue(r, ops).1, RunArrivals(s, ops).1)
    decreases |ops|
  {
    hide StableSortOf, Inserted, Head, Rest, Taken, Left;
    if ops != [] {
      match ops[0]
      case Push(x) =>
        PushRefines(r, s, x);
        QueueRefinesArrivals(Inserted(r, x), s + [x], ops[1..]);
      case Pop =>
        PopRefines(r, s);
        QueueRefinesArrivals(Rest(r), Left(s), ops[1..]);
    }
  }

  /** There is only one stable sort, so the order in which the queue drains is
      fixed by the arrivals. */
  lemma {:induction false} StableSortUnique(r1: seq<Item>, r2: seq<Item>, s: seq<Item>)
    requires StableSortOf(r1, s) && StableSortOf(r2, s)
    ensures r1 == r2
    decreases |r1|
  {
    hide StableSortOf;
    PopRefines(r1, s);
    PopRefines(r2, s);
    if r1 != [] {
      StableSortUnique(r1[1..], r2[1..], Left(s));
      assert r1 == [r1[0]] + r1[1..] && r2 == [r2[0]] + r2[1..];
    }
  }
}
