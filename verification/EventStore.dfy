/** The event store as a versioned log with atomic, optimistic appends, and
    the result persister, its second concurrent writer. */
module EventStore {
  import opened Events
  import opened EngineStep

  // ---------------------------------------------------------------------
  // Rows
  // ---------------------------------------------------------------------

  type EventID = string

  /** An envelope with the identity it was created with. Only the store
      compares identities: they are its primary key. */
  datatype Row = Row(eventID: EventID, env: Envelope)

  function Envelopes(rows: seq<Row>): (r: seq<Envelope>)
    ensures |r| == |rows|
  {
    seq(|rows|, i requires 0 <= i < |rows| => rows[i].env)
  }

  /** The events of one aggregate, in insertion order. */
  function LogOf(rows: seq<Row>, id: string): seq<Envelope> {
    if rows == [] then []
    else LogOf(rows[..|rows| - 1], id) +
         if rows[|rows| - 1].env.aggregateID == id then [rows[|rows| - 1].env] else []
  }

  /** The events of one correlation, across aggregates, in insertion order. */
  function ChainOf(rows: seq<Row>, corr: string): seq<Envelope> {
    if rows == [] then []
    else ChainOf(rows[..|rows| - 1], corr) +
         if rows[|rows| - 1].env.correlationID == corr then [rows[|rows| - 1].env] else []
  }

  function MaxVersion(rows: seq<Row>, id: string): int {
    if rows == [] then 0
    else
      var rest, last := MaxVersion(rows[..|rows| - 1], id), rows[|rows| - 1].env;
      if last.aggregateID == id && last.version > rest then last.version else rest
  }

  /** Every aggregate's stored versions are exactly 1..n, in order. */
  ghost predicate GapFree(rows: seq<Row>) {
    forall id :: WellStamped(id, LogOf(rows, id))
  }

  predicate HasID(rows: seq<Row>, x: EventID) {
    exists k :: 0 <= k < |rows| && rows[k].eventID == x
  }

  /** No event is stored twice. */
  predicate DistinctIDs(rows: seq<Row>) {
    forall i, j :: 0 <= i < j < |rows| ==> rows[i].eventID != rows[j].eventID
  }

  /** The events are distinct and none of them is stored yet. */
  predicate FreshIDs(rows: seq<Row>, events: seq<Row>) {
    DistinctIDs(events) && forall i :: 0 <= i < |events| ==> !HasID(rows, events[i].eventID)
  }

  lemma {:induction false} LogOfConcat(a: seq<Row>, b: seq<Row>, id: string)
    ensures LogOf(a + b, id) == LogOf(a, id) + LogOf(b, id)
  {
    if b == [] {
      assert a + b == a;
    } else {
      var init := b[..|b| - 1];
      assert (a + b)[..|a + b| - 1] == a + init;
      LogOfConcat(a, init, id);
    }
  }

  lemma {:induction false} LogOfUniform(b: seq<Row>, owner: string, id: string)
    requires forall i :: 0 <= i < |b| ==> b[i].env.aggregateID == owner
    ensures LogOf(b, id) == if id == owner then Envelopes(b) else []
  {
    if b != [] {
      LogOfUniform(b[..|b| - 1], owner, id);
      assert Envelopes(b) == Envelopes(b[..|b| - 1]) + [b[|b| - 1].env];
    }
  }

  lemma {:induction false} MaxVersionIsLength(rows: seq<Row>, id: string)
    requires WellStamped(id, LogOf(rows, id))
    ensures MaxVersion(rows, id) == |LogOf(rows, id)|
  {
    if rows != [] {
      var init, last := rows[..|rows| - 1], rows[|rows| - 1].env;
      assert LogOf(init, id) <= LogOf(rows, id);
      MaxVersionIsLength(init, id);
      if last.aggregateID == id {
        assert LogOf(rows, id)[|LogOf(init, id)|] == last;
      }
    }
  }

  lemma {:induction false} RowInLog(rows: seq<Row>, k: nat) returns (i: nat)
    requires k < |rows|
    ensures i < |LogOf(rows, rows[k].env.aggregateID)| && LogOf(rows, rows[k].env.aggregateID)[i] == rows[k].env
  {
    var id := rows[k].env.aggregateID;
    var init := rows[..|rows| - 1];
    if k == |init| {
      i := |LogOf(init, id)|;
    } else {
      i := RowInLog(init, k);
    }
  }

  /** What is chosen are the rows at these positions, in insertion order, and
      they are exactly the rows with the property. */
  ghost predicate Selects(idx: seq<nat>, rows: seq<Row>, p: Envelope -> bool, chosen: seq<Envelope>) {
    && |idx| == |chosen|
    && (forall a, b :: 0 <= a < b < |idx| ==> idx[a] < idx[b])
    && (forall a :: 0 <= a < |idx| ==> idx[a] < |rows| && rows[idx[a]].env == chosen[a])
    && forall k: nat :: k < |rows| ==> (k in idx <==> p(rows[k].env))
  }

  lemma SelectsSnoc(idx: seq<nat>, rows: seq<Row>, p: Envelope -> bool, chosen: seq<Envelope>, row: Row)
    requires Selects(idx, rows, p, chosen)
    ensures if p(row.env) then Selects(idx + [|rows|], rows + [row], p, chosen + [row.env])
            else Selects(idx, rows + [row], p, chosen)
  {
    var n, rows' := |rows|, rows + [row];
    assert rows'[n] == row && forall k :: 0 <= k < n ==> rows'[k] == rows[k];
    assert forall k: nat :: k in idx ==> k < n;
    if p(row.env) {
      var idx' := idx + [n];
      assert idx'[|idx|] == n;
      assert forall k: nat :: k in idx' <==> k in idx || k == n;
    }
  }

  function OfCorrelation(corr: string): Envelope -> bool {
    (e: Envelope) => e.correlationID == corr
  }

  function OfAggregate(id: string): Envelope -> bool {
    (e: Envelope) => e.aggregateID == id
  }

  /** The chain of a correlation is exactly its rows, in insertion order. */
  lemma {:induction false} ChainExact(rows: seq<Row>, corr: string) returns (idx: seq<nat>)
    ensures Selects(idx, rows, OfCorrelation(corr), ChainOf(rows, corr))
  {
    idx := [];
    if rows != [] {
      hide Selects;
      var init, last := rows[..|rows| - 1], rows[|rows| - 1];
      var p := OfCorrelation(corr);
      var before := ChainExact(init, corr);
      assert Selects(before, init, p, ChainOf(init, corr));
      SelectsSnoc(before, init, p, ChainOf(init, corr), last);
      assert rows == init + [last];
      idx := if p(last.env) then before + [|init|] else before;
      assert ChainOf(rows, corr) == if p(last.env) then ChainOf(init, corr) + [last.env] else ChainOf(init, corr);
      assert Selects(idx, rows, p, ChainOf(rows, corr));
    }
  }

  /** The log of an aggregate is exactly its rows, in insertion order. */
  lemma {:induction false} LogExact(rows: seq<Row>, id: string) returns (idx: seq<nat>)
    ensures Selects(idx, rows, OfAggregate(id), LogOf(rows, id))
  {
    idx := [];
    if rows != [] {
      hide Selects;
      var init, last := rows[..|rows| - 1], rows[|rows| - 1];
      var p := OfAggregate(id);
      var before := LogExact(init, id);
      assert Selects(before, init, p, LogOf(init, id));
      SelectsSnoc(before, init, p, LogOf(init, id), last);
      assert rows == init + [last];
      idx := if p(last.env) then before + [|init|] else before;
      assert LogOf(rows, id) == if p(last.env) then LogOf(init, id) + [last.env] else LogOf(init, id);
      assert Selects(idx, rows, p, LogOf(rows, id));
    }
  }

  // ---------------------------------------------------------------------
  // Appends
  // ---------------------------------------------------------------------

  /** What the store writes for a batch. */
  function StampRows(id: string, base: nat, events: seq<Row>): (r: seq<Row>)
    ensures |r| == |events|
    ensures Envelopes(r) == Stamp(id, base, Envelopes(events))
  {
    seq(|events|, i requires 0 <= i < |events| =>
      Row(events[i].eventID, events[i].env.(aggregateID := id, version := base + i + 1)))
  }

  /** One append attempt: by anyone, on any expected version. */
  datatype Write = Write(aggregateID: string, expectedVersion: int, events: seq<Row>)

  predicate Accepts(rows: seq<Row>, w: Write) {
    w.events == []
    || (w.expectedVersion == |LogOf(rows, w.aggregateID)| && FreshIDs(rows, w.events))
  }

  function Appended(rows: seq<Row>, w: Write): seq<Row> {
    if Accepts(rows, w) then rows + StampRows(w.aggregateID, |LogOf(rows, w.aggregateID)|, w.events) else rows
  }

  function AppendedAll(rows: seq<Row>, ws: seq<Write>): seq<Row> {
    if ws == [] then rows else Appended(AppendedAll(rows, ws[..|ws| - 1]), ws[|ws| - 1])
  }

  lemma LogOfAppended(rows: seq<Row>, w: Write, id: string)
    ensures LogOf(Appended(rows, w), id) ==
      if id == w.aggregateID && Accepts(rows, w)
      then LogOf(rows, id) + Stamp(id, |LogOf(rows, id)|, Envelopes(w.events)) else LogOf(rows, id)
  {
    if Accepts(rows, w) {
      var stamped := StampRows(w.aggregateID, |LogOf(rows, w.aggregateID)|, w.events);
      LogOfConcat(rows, stamped, id);
      LogOfUniform(stamped, w.aggregateID, id);
    }
  }

  lemma AppendKeepsGapFree(rows: seq<Row>, w: Write)
    requires GapFree(rows)
    ensures GapFree(Appended(rows, w))
  {
    forall id ensures WellStamped(id, LogOf(Appended(rows, w), id)) {
      LogOfAppended(rows, w, id);
    }
  }

  lemma AppendKeepsDistinct(rows: seq<Row>, w: Write)
    requires DistinctIDs(rows)
    ensures DistinctIDs(Appended(rows, w))
  {
    hide LogOf;
    var rows' := Appended(rows, w);
    forall i, j | 0 <= i < j < |rows'| ensures rows'[i].eventID != rows'[j].eventID {
      if i < |rows| <= j {
        assert !HasID(rows, w.events[j - |rows|].eventID);
      }
    }
  }

  /** Whatever writers interleave, with whatever expected versions, every
      aggregate's versions stay exactly 1..n, no event is stored twice, and
      the rows and each log only grow. */
  lemma {:induction false} WritersKeepGapFree(rows: seq<Row>, ws: seq<Write>, id: string)
    requires GapFree(rows) && DistinctIDs(rows)
    ensures GapFree(AppendedAll(rows, ws)) && DistinctIDs(AppendedAll(rows, ws))
    ensures rows <= AppendedAll(rows, ws)
    ensures LogOf(rows, id) <= LogOf(AppendedAll(rows, ws), id)
  {
    hide GapFree, DistinctIDs, Accepts, LogOf;
    if ws != [] {
      var before, last := AppendedAll(rows, ws[..|ws| - 1]), ws[|ws| - 1];
      WritersKeepGapFree(rows, ws[..|ws| - 1], id);
      AppendKeepsGapFree(before, last);
      AppendKeepsDistinct(before, last);
      LogOfAppended(before, last, id);
    }
  }

  /** The optimistic check is sound: a non-empty append at the version read
      earlier succeeds if and only if nobody wrote to that aggregate in
      between and its events are new, and it then extends exactly the log that
      was read. */
  lemma AcceptedMeansUnchanged(rows: seq<Row>, between: seq<Write>, w: Write)
    requires GapFree(rows) && DistinctIDs(rows)
    requires w.events != [] && w.expectedVersion == |LogOf(rows, w.aggregateID)|
    ensures var now := AppendedAll(rows, between);
      && (Accepts(now, w) <==> LogOf(now, w.aggregateID) == LogOf(rows, w.aggregateID) && FreshIDs(now, w.events))
      && (Accepts(now, w) ==>
            LogOf(Appended(now, w), w.aggregateID)
            == LogOf(rows, w.aggregateID) + Stamp(w.aggregateID, |LogOf(rows, w.aggregateID)|, Envelopes(w.events)))
  {
    hide FreshIDs, LogOf, AppendedAll;
    var now := AppendedAll(rows, between);
    WritersKeepGapFree(rows, between, w.aggregateID);
    LogOfAppended(now, w, w.aggregateID);
  }

  /** An event is stored at most once: after a batch went in, whatever is
      written next, no batch that repeats one of its events is accepted, for
      any aggregate at any version. */
  lemma StoredOnce(rows: seq<Row>, w: Write, between: seq<Write>, again: Write, i: nat, j: nat)
    requires GapFree(rows) && DistinctIDs(rows) && Accepts(rows, w)
    requires i < |w.events| && j < |again.events| && w.events[i].eventID == again.events[j].eventID
    ensures var now := AppendedAll(Appended(rows, w), between);
      !Accepts(now, again) && Appended(now, again) == now
  {
    hide LogOf, GapFree, DistinctIDs;
    var stored := Appended(rows, w);
    AppendKeepsGapFree(rows, w);
    AppendKeepsDistinct(rows, w);
    WritersKeepGapFree(stored, between, "");
    var now := AppendedAll(stored, between);
    assert now[|rows| + i] == stored[|rows| + i];
    assert HasID(now, again.events[j].eventID);
  }

  // ---------------------------------------------------------------------
  // The store
  // ---------------------------------------------------------------------

  datatype AppendResult = Stored | Conflict | StoreFault

  class SQLiteStore {
    var rows: seq<Row>

    ghost predicate Valid()
      reads this
    {
      GapFree(rows) && DistinctIDs(rows)
    }

    constructor ()
      ensures Valid() && rows == []
    {
      rows := [];
    }

    /** SELECT COALESCE(MAX(version), 0). */
    method CurrentVersion(aggregateID: string) returns (v: nat)
      requires Valid()
      ensures v == |LogOf(rows, aggregateID)|
    {
      hide DistinctIDs;
      var max := 0;
      for i := 0 to |rows|
        invariant max == MaxVersion(rows[..i], aggregateID)
      {
        assert rows[..i + 1][..i] == rows[..i];
        if rows[i].env.aggregateID == aggregateID && rows[i].env.version > max {
          max := rows[i].env.version;
        }
      }
      assert rows[..|rows|] == rows;
      assert WellStamped(aggregateID, LogOf(rows, aggregateID));
      MaxVersionIsLength(rows, aggregateID);
      v := max;
    }

    /** The inserts of a transaction, row by row, under both constraints: the
        identity is the primary key, and UNIQUE(aggregate, version). Only the
        first can be violated once the version check has passed. */
    static method InsertAll(table: seq<Row>, aggregateID: string, base: nat, events: seq<Row>)
      returns (tx: seq<Row>, unique: bool)
      requires GapFree(table) && base == |LogOf(table, aggregateID)|
      ensures unique <==> FreshIDs(table, events)
      ensures unique ==> tx == table + StampRows(aggregateID, base, events)
    {
      hide GapFree, LogOf, FreshIDs;
      var stamped := StampRows(aggregateID, base, events);
      tx := table;
      NoneInserted(table);
      assert events[..0] == [] && stamped[..0] == [];
      for i := 0 to |events|
        invariant tx == table + stamped[..i]
        invariant FreshIDs(table, events[..i])
      {
        var version := base + i + 1;
        NoVersionViolation(table, aggregateID, stamped[..i], version);
        FreshOneMore(table, events, stamped, i);
        if exists k :: 0 <= k < |tx| && tx[k].eventID == events[i].eventID {
          NotFresh(table, events, i + 1);
          return tx, false;
        }
        if exists k :: 0 <= k < |tx| && tx[k].env.aggregateID == aggregateID && tx[k].env.version == version {
          return tx, false;
        }
        tx := tx + [Row(events[i].eventID, events[i].env.(aggregateID := aggregateID, version := version))];
        assert stamped[..i + 1] == stamped[..i] + [stamped[i]];
      }
      assert events[..|events|] == events && stamped[..|events|] == stamped;
      return tx, true;
    }

    /** The transaction: check the current version, insert, commit or roll
        back. `fault` is an I/O failure of the database. */
    method Append(aggregateID: string, expectedVersion: int, events: seq<Row>, fault: bool)
      returns (result: AppendResult)
      requires Valid()
      modifies this
      ensures Valid()
      ensures result == Stored <==>
        events == [] || (!fault && expectedVersion == |LogOf(old(rows), aggregateID)| && FreshIDs(old(rows), events))
      ensures result == Stored ==> rows == Appended(old(rows), Write(aggregateID, expectedVersion, events))
      ensures result != Stored ==> rows == old(rows)
    {
      hide GapFree, DistinctIDs, FreshIDs, LogOf;
      if |events| == 0 {
        assert StampRows(aggregateID, |LogOf(rows, aggregateID)|, events) == [];
        return Stored;
      }
      if fault {
        return StoreFault;
      }
      var currentVersion := CurrentVersion(aggregateID);
      if currentVersion != expectedVersion {
        return Conflict;
      }
      var tx, unique := InsertAll(rows, aggregateID, currentVersion, events);
      if !unique {
        return Conflict;
      }
      AppendKeepsGapFree(rows, Write(aggregateID, expectedVersion, events));
      AppendKeepsDistinct(rows, Write(aggregateID, expectedVersion, events));
      rows := tx;
      return Stored;
    }

    method Load(aggregateID: string) returns (log: seq<Envelope>)
      requires Valid()
      ensures log == LogOf(rows, aggregateID)
      ensures forall i, j :: 0 <= i < j < |log| ==> log[i].version < log[j].version
    {
      hide DistinctIDs;
      log := [];
      for i := 0 to |rows|
        invariant log == LogOf(rows[..i], aggregateID)
      {
        assert rows[..i + 1][..i] == rows[..i];
        if rows[i].env.aggregateID == aggregateID {
          log := log + [rows[i].env];
        }
      }
      assert rows[..|rows|] == rows;
    }

    method LoadByCorrelation(correlationID: string) returns (chain: seq<Envelope>)
      ensures chain == ChainOf(rows, correlationID)
    {
      chain := [];
      for i := 0 to |rows|
        invariant chain == ChainOf(rows[..i], correlationID)
      {
        assert rows[..i + 1][..i] == rows[..i];
        if rows[i].env.correlationID == correlationID {
          chain := chain + [rows[i].env];
        }
      }
      assert rows[..|rows|] == rows;
    }

    /** Any other writers, between two operations of this one. */
    method Interfere(ws: seq<Write>)
      requires Valid()
      modifies this
      ensures Valid() && rows == AppendedAll(old(rows), ws)
    {
      hide GapFree, DistinctIDs, Accepts, LogOf;
      for i := 0 to |ws|
        invariant Valid() && rows == AppendedAll(old(rows), ws[..i])
      {
        assert ws[..i + 1][..i] == ws[..i];
        var w := ws[i];
        ghost var before := rows;
        var result := Append(w.aggregateID, w.expectedVersion, w.events, false);
        assert rows == Appended(before, w) by { AcceptsIff(before, w); }
      }
      assert ws[..|ws|] == ws;
    }
  }

  lemma AcceptsIff(rows: seq<Row>, w: Write)
    ensures Accepts(rows, w) <==>
      w.events == [] || (w.expectedVersion == |LogOf(rows, w.aggregateID)| && FreshIDs(rows, w.events))
    ensures !Accepts(rows, w) ==> Appended(rows, w) == rows
  {}

  lemma NoneInserted(table: seq<Row>)
    ensures FreshIDs(table, [])
  {}

  /** The check of row i against the table and the rows inserted before it. */
  lemma FreshOneMore(table: seq<Row>, events: seq<Row>, stamped: seq<Row>, i: nat)
    requires i < |events| == |stamped| && FreshIDs(table, events[..i])
    requires forall k :: 0 <= k < |events| ==> stamped[k].eventID == events[k].eventID
    ensures FreshIDs(table, events[..i + 1]) <==> !HasID(table + stamped[..i], events[i].eventID)
  {
    var tx := table + stamped[..i];
    if k :| 0 <= k < |tx| && tx[k].eventID == events[i].eventID {
      if k < |table| {
        assert HasID(table, events[i].eventID) && events[..i + 1][i] == events[i];
      } else {
        assert events[..i + 1][k - |table|] == events[k - |table|] && events[..i + 1][i] == events[i];
      }
    } else {
      forall j | 0 <= j < i ensures events[j].eventID != events[i].eventID {
        assert tx[|table| + j] == stamped[j];
      }
      forall k | 0 <= k < |table| ensures table[k].eventID != events[i].eventID {
        assert tx[k] == table[k];
      }
      var more := events[..i + 1];
      forall j | 0 <= j < |more| ensures !HasID(table, more[j].eventID) {
        assert j < i ==> more[j] == events[..i][j];
      }
    }
  }

  lemma NotFresh(table: seq<Row>, events: seq<Row>, n: nat)
    requires n <= |events| && !FreshIDs(table, events[..n])
    ensures !FreshIDs(table, events)
  {}

  /** The inserts never meet UNIQUE(aggregate, version) once the version check
      has passed. */
  lemma NoVersionViolation(rows: seq<Row>, id: string, inserted: seq<Row>, version: int)
    requires GapFree(rows)
    requires version == |LogOf(rows, id)| + |inserted| + 1
    requires forall i :: 0 <= i < |inserted| ==> inserted[i].env.version == |LogOf(rows, id)| + i + 1
    ensures var tx := rows + inserted;
      !exists k :: 0 <= k < |tx| && tx[k].env.aggregateID == id && tx[k].env.version == version
  {
    var tx := rows + inserted;
    assert WellStamped(id, LogOf(rows, id));
    forall k | 0 <= k < |tx| && tx[k].env.aggregateID == id ensures tx[k].env.version != version {
      if k < |rows| {
        var i := RowInLog(rows, k);
      }
    }
  }

  /** So a batch at the current version meets a unique constraint exactly when
      it repeats a stored event, or one of its own. */
  lemma NoUniqueViolation(rows: seq<Row>, id: string, events: seq<Row>)
    requires GapFree(rows) && DistinctIDs(rows)
    ensures var tx := rows + StampRows(id, |LogOf(rows, id)|, events);
      && (forall i, j :: 0 <= i < j < |tx| && tx[i].env.aggregateID == tx[j].env.aggregateID ==>
            tx[i].env.version != tx[j].env.version)
      && (DistinctIDs(tx) <==> FreshIDs(rows, events))
  {
    hide LogOf, GapFree;
    var stamped := StampRows(id, |LogOf(rows, id)|, events);
    var tx := rows + stamped;
    VersionsDiffer(rows, id, events);
    if FreshIDs(rows, events) {
      forall i, j | 0 <= i < j < |tx| ensures tx[i].eventID != tx[j].eventID {
        if i < |rows| <= j {
          assert !HasID(rows, events[j - |rows|].eventID);
        }
      }
    }
    if DistinctIDs(tx) {
      forall j | 0 <= j < |events| ensures !HasID(rows, events[j].eventID) {
        assert tx[|rows| + j] == stamped[j];
        assert forall k :: 0 <= k < |rows| ==> tx[k] == rows[k];
      }
      forall i, j | 0 <= i < j < |events| ensures events[i].eventID != events[j].eventID {
        assert tx[|rows| + i] == stamped[i] && tx[|rows| + j] == stamped[j];
      }
    }
  }

  lemma VersionsDiffer(rows: seq<Row>, id: string, events: seq<Row>)
    requires GapFree(rows)
    ensures var tx := rows + StampRows(id, |LogOf(rows, id)|, events);
      forall i, j :: 0 <= i < j < |tx| && tx[i].env.aggregateID == tx[j].env.aggregateID ==>
        tx[i].env.version != tx[j].env.version
  {
    var n := |LogOf(rows, id)|;
    var stamped := StampRows(id, n, events);
    var tx := rows + stamped;
    forall i, j | 0 <= i < j < |tx| && tx[i].env.aggregateID == tx[j].env.aggregateID
      ensures tx[i].env.version != tx[j].env.version
    {
      if j < |rows| {
        StoredVersionsDiffer(rows, i, j);
      } else if i < |rows| {
        NoVersionViolation(rows, id, stamped[..j - |rows|], n + (j - |rows|) + 1);
        assert (rows + stamped[..j - |rows|])[i] == rows[i];
      }
    }
  }

  lemma {:induction false} StoredVersionsDiffer(rows: seq<Row>, i: nat, j: nat)
    requires GapFree(rows) && i < j < |rows| && rows[i].env.aggregateID == rows[j].env.aggregateID
    ensures rows[i].env.version != rows[j].env.version
  {
    var id := rows[i].env.aggregateID;
    assert WellStamped(id, LogOf(rows, id));
    var a := Rank(rows, i);
    var b := Rank(rows, j);
    RankGrows(rows, i, j);
  }

  /** The place of row k in the log of its aggregate. */
  lemma Rank(rows: seq<Row>, k: nat) returns (r: nat)
    requires k < |rows|
    ensures r == |LogOf(rows[..k], rows[k].env.aggregateID)|
    ensures var log := LogOf(rows, rows[k].env.aggregateID);
      r < |log| && log[r] == rows[k].env
  {
    var id := rows[k].env.aggregateID;
    r := |LogOf(rows[..k], id)|;
    assert rows == rows[..k + 1] + rows[k + 1..];
    LogOfConcat(rows[..k + 1], rows[k + 1..], id);
    assert rows[..k + 1][..k] == rows[..k];
  }

  lemma RankGrows(rows: seq<Row>, i: nat, j: nat)
    requires i < j < |rows| && rows[i].env.aggregateID == rows[j].env.aggregateID
    ensures var id := rows[i].env.aggregateID;
      |LogOf(rows[..i], id)| < |LogOf(rows[..j], id)|
  {
    var id := rows[i].env.aggregateID;
    assert rows[..j] == rows[..i + 1] + rows[i + 1..j];
    LogOfConcat(rows[..i + 1], rows[i + 1..j], id);
    assert rows[..i + 1][..i] == rows[..i];
  }

  // ---------------------------------------------------------------------
  // The result persister
  // ---------------------------------------------------------------------

  const MaxPersistRetries := 3

  /** Which of an attempt's two accesses to the database fail. */
  datatype Faults = Faults(load: bool, append: bool)

  /** A load that fails counts as an empty log. */
  function BaseVersion(rows: seq<Row>, id: string, faults: Faults): nat {
    if faults.load then 0 else |LogOf(rows, id)|
  }

  /** The append of an attempt that read `read` succeeds on `now`. */
  predicate Lands(read: seq<Row>, now: seq<Row>, id: string, events: seq<Row>, faults: Faults) {
    !faults.append && |LogOf(now, id)| == BaseVersion(read, id, faults) && FreshIDs(now, events)
  }

  class ResultPersister {
    const store: SQLiteStore
    var published: seq<Row>

    constructor (store: SQLiteStore)
      ensures this.store == store && published == []
    {
      this.store := store;
      published := [];
    }

    /** One attempt: load, stamp, let the others run, append. */
    method Attempt(aggregateID: string, events: seq<Row>, others: seq<Write>, faults: Faults)
      returns (stamped: seq<Row>, stored: bool)
      requires store.Valid() && events != []
      modifies store
      ensures store.Valid()
      ensures var base := if faults.load then 0 else |LogOf(old(store.rows), aggregateID)|;
        stamped == StampRows(aggregateID, base, events)
      ensures var now := AppendedAll(old(store.rows), others);
        && (stored <==>
              !faults.append && |LogOf(now, aggregateID)| == BaseVersion(old(store.rows), aggregateID, faults)
              && FreshIDs(now, events))
        && (stored && !faults.load ==> LogOf(now, aggregateID) == LogOf(old(store.rows), aggregateID))
        && store.rows == if stored then now + stamped else now
    {
      hide GapFree, DistinctIDs, FreshIDs, LogOf, AppendedAll;
      ghost var read := store.rows;
      var currentVersion := 0;
      LastVersion(read, aggregateID);
      if !faults.load {
        var existing := store.Load(aggregateID);
        if |existing| > 0 {
          currentVersion := existing[|existing| - 1].version;
        }
      }
      stamped := RestampLoop(aggregateID, currentVersion, events);
      store.Interfere(others);
      WritersKeepGapFree(read, others, aggregateID);
      StampingKeepsIDs(store.rows, aggregateID, currentVersion, events);
      var result := store.Append(aggregateID, currentVersion, stamped, faults.append);
      stored := result == Stored;
      assert StampRows(aggregateID, currentVersion, stamped) == stamped;
    }

    /** The retry loop. `others[k]` are the writers that run during attempt k,
        and `faults[k]` says where the database fails it. The ghost result
        names the attempt that stored the events: the first that could. */
    method Persist(aggregateID: string, events: seq<Row>, others: seq<seq<Write>>, faults: seq<Faults>)
      returns (stamped: seq<Row>, ghost storedAt: Option<nat>)
      requires store.Valid() && events != [] && |others| == |faults| == 3
      modifies store
      ensures store.Valid()
      ensures storedAt == FirstLanding(old(store.rows), aggregateID, events, others, faults, 0)
      ensures stamped == LastStamped(old(store.rows), aggregateID, events, others, faults, LastAttempt(storedAt))
      ensures var now := Seen(old(store.rows), others, LastAttempt(storedAt) + 1);
        store.rows == if storedAt.Some? then now + stamped else now
    {
      hide GapFree, DistinctIDs, FreshIDs, LogOf, AppendedAll, StampRows;
      ghost var rows0 := store.rows;
      var stored;
      stamped, stored := Attempt(aggregateID, events, others[0], faults[0]);
      var attempt := 0;
      while !stored && attempt + 1 < MaxPersistRetries
        invariant 0 <= attempt < MaxPersistRetries && store.Valid()
        invariant FirstLanding(rows0, aggregateID, events, others, faults, 0)
                  == FirstLanding(rows0, aggregateID, events, others, faults, attempt)
        invariant stamped == LastStamped(rows0, aggregateID, events, others, faults, attempt)
        invariant var read, now := Seen(rows0, others, attempt), Seen(rows0, others, attempt + 1);
          && (stored <==> Lands(read, now, aggregateID, events, faults[attempt]))
          && store.rows == if stored then now + stamped else now
        decreases MaxPersistRetries - attempt
      {
        ghost var base := BaseVersion(Seen(rows0, others, attempt), aggregateID, faults[attempt]);
        attempt := attempt + 1;
        Restamped(Seen(rows0, others, attempt), Seen(rows0, others, attempt + 1), aggregateID, base, events,
                  faults[attempt]);
        stamped, stored := Attempt(aggregateID, stamped, others[attempt], faults[attempt]);
      }
      storedAt := if stored then Some(attempt) else None;
    }

    /** Attempt up to three times, then publish whatever was stamped last,
        stored or not. */
    method PersistAndPublish(aggregateID: string, events: seq<Row>, others: seq<seq<Write>>, faults: seq<Faults>)
      returns (ghost storedAt: Option<nat>)
      requires store.Valid() && |others| == |faults| == 3
      modifies this, store
      ensures store.Valid()
      ensures events == [] ==> store.rows == old(store.rows) && published == old(published)
      ensures events != [] ==>
        storedAt == FirstLanding(old(store.rows), aggregateID, events, others, faults, 0)
      ensures events != [] ==>
        var now := Seen(old(store.rows), others, LastAttempt(storedAt) + 1);
        var stamped := LastStamped(old(store.rows), aggregateID, events, others, faults, LastAttempt(storedAt));
        && published == old(published) + stamped
        && store.rows == if storedAt.Some? then now + stamped else now
    {
      hide GapFree, DistinctIDs, LogOf, AppendedAll, Lands, LastStamped;
      storedAt := None;
      if |events| == 0 {
        return;
      }
      var stamped;
      stamped, storedAt := Persist(aggregateID, events, others, faults);
      for i := 0 to |stamped|
        modifies this
        invariant published == old(published) + stamped[..i]
      {
        published := published + [stamped[i]];
      }
    }

    /** Restamps the batch in place. */
    static method RestampLoop(aggregateID: string, currentVersion: nat, events: seq<Row>)
      returns (stamped: seq<Row>)
      ensures stamped == StampRows(aggregateID, currentVersion, events)
    {
      stamped := events;
      for i := 0 to |events|
        invariant |stamped| == |events|
        invariant stamped[..i] == StampRows(aggregateID, currentVersion, events)[..i]
        invariant stamped[i..] == events[i..]
      {
        var e := stamped[i];
        stamped := stamped[i := e.(env := e.env.(aggregateID := aggregateID, version := currentVersion + i + 1))];
      }
    }
  }

  lemma LastVersion(rows: seq<Row>, id: string)
    requires GapFree(rows)
    ensures var log := LogOf(rows, id); log != [] ==> log[|log| - 1].version == |log|
  {
    assert WellStamped(id, LogOf(rows, id));
  }

  lemma StampingKeepsIDs(rows: seq<Row>, id: string, base: nat, events: seq<Row>)
    ensures FreshIDs(rows, StampRows(id, base, events)) <==> FreshIDs(rows, events)
  {
    var stamped := StampRows(id, base, events);
    assert forall i :: 0 <= i < |events| ==> stamped[i].eventID == events[i].eventID;
  }

  /** An attempt on a batch that was stamped before fares as on the original. */
  lemma Restamped(read: seq<Row>, now: seq<Row>, id: string, base: nat, events: seq<Row>, faults: Faults)
    ensures var before := StampRows(id, base, events);
      && (Lands(read, now, id, before, faults) <==> Lands(read, now, id, events, faults))
      && forall v: nat :: StampRows(id, v, before) == StampRows(id, v, events)
  {
    hide LogOf, FreshIDs;
    StampingKeepsIDs(now, id, base, events);
  }

  /** The rows after the other writers of the first k attempts. */
  function Seen(rows: seq<Row>, others: seq<seq<Write>>, k: nat): seq<Row>
    requires k <= |others|
  {
    if k == 0 then rows else AppendedAll(Seen(rows, others, k - 1), others[k - 1])
  }

  /** What attempt k stamped: the next versions after the log it read. */
  function LastStamped(rows: seq<Row>, id: string, events: seq<Row>, others: seq<seq<Write>>, faults: seq<Faults>,
                       k: nat): seq<Row>
    requires |others| == |faults| && k < |faults|
  {
    StampRows(id, BaseVersion(Seen(rows, others, k), id, faults[k]), events)
  }

  function LastAttempt(storedAt: Option<nat>): nat {
    if storedAt.Some? && storedAt.value < MaxPersistRetries then storedAt.value else MaxPersistRetries - 1
  }

  /** The first attempt from k on that can store the batch. */
  function FirstLanding(rows: seq<Row>, id: string, events: seq<Row>, others: seq<seq<Write>>, faults: seq<Faults>,
                        k: nat): (r: Option<nat>)
    requires |others| == |faults| && k <= |faults|
    ensures r.Some? ==> k <= r.value < |faults|
    decreases |faults| - k
  {
    if k == |faults| then None
    else if Lands(Seen(rows, others, k), Seen(rows, others, k + 1), id, events, faults[k]) then Some(k)
    else FirstLanding(rows, id, events, others, faults, k + 1)
  }

  /** The append of attempt k meets no fault, finds the length that its load
      returned, and brings only new events. */
  predicate AttemptFits(rows: seq<Row>, id: string, events: seq<Row>, others: seq<seq<Write>>, faults: seq<Faults>,
                        k: nat)
    requires |others| == |faults| && k < |faults|
  {
    var read, now := Seen(rows, others, k), Seen(rows, others, k + 1);
    && !faults[k].append && FreshIDs(now, events)
    && |LogOf(now, id)| == if faults[k].load then 0 else |LogOf(read, id)|
  }

  /** The attempt that stores the batch is the first that fits, and there is
      none exactly when no attempt fits. */
  lemma {:induction false} FirstLandingIs(rows: seq<Row>, id: string, events: seq<Row>, others: seq<seq<Write>>,
                                          faults: seq<Faults>, k: nat)
    requires |others| == |faults| && k <= |faults|
    ensures var r := FirstLanding(rows, id, events, others, faults, k);
      && (r.Some? ==> AttemptFits(rows, id, events, others, faults, r.value))
      && forall i :: k <= i < (if r.Some? then r.value else |faults|) ==>
           !AttemptFits(rows, id, events, others, faults, i)
    decreases |faults| - k
  {
    hide FreshIDs, LogOf, Seen;
    if k < |faults| {
      FirstLandingIs(rows, id, events, others, faults, k + 1);
    }
  }
}
