/** The NDJSON stream splitter: it buffers incoming bytes, hands each complete
    line to an extractor, and forwards the text to a sink. Its output does not
    depend on how the stream was cut into writes. */
module StreamWriter {
  import opened Events

  newtype Byte = b: int | 0 <= b < 256

  type Bytes = seq<Byte>

  const Newline: Byte := 10

  predicate IsAsciiSpace(b: Byte) {
    9 <= b <= 13 || b == 32
  }

  function TrimRight(s: Bytes): Bytes {
    if s == [] || !IsAsciiSpace(s[|s| - 1]) then s else TrimRight(s[..|s| - 1])
  }

  function TrimLeft(s: Bytes): Bytes {
    if s == [] || !IsAsciiSpace(s[0]) then s else TrimLeft(s[1..])
  }

  /** Trimming on streams without multi-byte white space. */
  function TrimAscii(s: Bytes): Bytes {
    TrimLeft(TrimRight(s))
  }

  lemma TrimAsciiTrims()
    ensures TrimsTerminator(TrimAscii)
  {
    forall s ensures TrimAscii(s + [Newline]) == TrimAscii(s) {
      assert (s + [Newline])[..|s|] == s;
    }
  }

  // ---------------------------------------------------------------------
  // What a line does
  // ---------------------------------------------------------------------

  /** How lines are read: the trimming of surrounding white space, and the
      backend's parsers, which may keep state S between lines. */
  datatype Parsers<!S> = Parsers(
    trim: Bytes -> Bytes,
    extract: (S, Bytes) -> (S, Option<Bytes>),
    check: Option<(S, Bytes) -> (S, string)>)

  /** All that is needed of the trimming: a line terminator is white space. */
  ghost predicate TrimsTerminator(trim: Bytes -> Bytes) {
    forall s :: trim(s + [Newline]) == trim(s)
  }

  datatype Progress<S> = Progress(state: S, written: Bytes, stopReason: string)

  function Checked<S>(ps: Parsers<S>, g: Progress<S>, line: Bytes): Progress<S> {
    match ps.check
    case None => g
    case Some(check) =>
      var (state, reason) := check(g.state, line);
      g.(state := state, stopReason := if reason != "" then reason else g.stopReason)
  }

  function Extracted<S>(ps: Parsers<S>, g: Progress<S>, line: Bytes): Progress<S> {
    var (state, text) := ps.extract(g.state, line);
    g.(state := state, written := if text.Some? then g.written + text.value else g.written)
  }

  function OnLine<S>(ps: Parsers<S>, g: Progress<S>, raw: Bytes): Progress<S> {
    var line := ps.trim(raw);
    if line == [] then g else Extracted(ps, Checked(ps, g, line), line)
  }

  /** The first newline, or the length when there is none. */
  function NewlineAt(s: Bytes): (i: nat)
    ensures i <= |s| && (i < |s| ==> s[i] == Newline)
    ensures forall k :: 0 <= k < i ==> s[k] != Newline
  {
    if s == [] || s[0] == Newline then 0 else 1 + NewlineAt(s[1..])
  }

  /** Handles every complete line of s and returns the incomplete rest. */
  function Feed<S>(ps: Parsers<S>, g: Progress<S>, s: Bytes): (Progress<S>, Bytes)
    decreases |s|
  {
    var i := NewlineAt(s);
    if i == |s| then (g, s) else Feed(ps, OnLine(ps, g, s[..i + 1]), s[i + 1..])
  }

  lemma FeedLine<S>(ps: Parsers<S>, g: Progress<S>, s: Bytes)
    ensures var i := NewlineAt(s);
      Feed(ps, g, s) == if i == |s| then (g, s) else Feed(ps, OnLine(ps, g, s[..i + 1]), s[i + 1..])
  {}

  lemma OnTrimmed<S>(ps: Parsers<S>, g: Progress<S>, raw: Bytes)
    ensures var line := ps.trim(raw);
      OnLine(ps, g, raw) == if line == [] then g else Extracted(ps, Checked(ps, g, line), line)
  {}

  predicate EndsLine(s: Bytes) {
    s != [] && s[|s| - 1] == Newline
  }

  lemma LineTaken(used: Bytes, s: Bytes, i: nat)
    requires i < |s| && s[i] == Newline
    ensures EndsLine(used + s[..i + 1]) && used + s == used + s[..i + 1] + s[i + 1..]
  {
    assert s == s[..i + 1] + s[i + 1..];
    assert (used + s[..i + 1])[|used| + i] == s[i];
  }

  // ---------------------------------------------------------------------
  // The objects
  // ---------------------------------------------------------------------

  /** The inner writer. An unreliable one may fail after part of a write. */
  class Sink {
    const reliable: bool
    var written: Bytes

    constructor (reliable: bool)
      ensures this.reliable == reliable && written == []
    {
      this.reliable := reliable;
      written := [];
    }

    method WriteString(text: Bytes) returns (ok: bool)
      modifies this
      ensures reliable ==> ok
      ensures if ok then written == old(written) + text else old(written) <= written <= old(written) + text
    {
      ok := *;
      ok := ok || reliable;
      if ok {
        written := written + text;
      } else {
        var n :| 0 <= n <= |text|;
        written := written + text[..n];
      }
    }
  }

  class Writer<S> {
    const inner: Sink
    const parsers: Parsers<S>
    var state: S
    var buf: Bytes
    var stopReason: string

    ghost function Now(): Progress<S>
      reads this, inner
    {
      Progress(state, inner.written, stopReason)
    }

    constructor (inner: Sink, parsers: Parsers<S>, state: S)
      ensures this.inner == inner && this.parsers == parsers
      ensures Now() == Progress(state, inner.written, "") && buf == []
    {
      this.inner := inner;
      this.parsers := parsers;
      this.state := state;
      buf := [];
      stopReason := "";
    }

    method CheckResult(line: Bytes)
      modifies this`state, this`stopReason
      ensures Now() == Checked(parsers, old(Now()), line)
    {
      if parsers.check.None? {
        return;
      }
      var (next, reason) := parsers.check.value(state, line);
      state := next;
      if reason != "" {
        stopReason := reason;
      }
    }

    /** What Write and Close do with a trimmed, non-empty line. */
    method ForwardLine(line: Bytes) returns (ok: bool)
      modifies this`state, this`stopReason, inner
      ensures inner.reliable ==> ok
      ensures ok ==> Now() == Extracted(parsers, Checked(parsers, old(Now()), line), line)
      ensures old(inner.written) <= inner.written
    {
      CheckResult(line);
      var (next, text) := parsers.extract(state, line);
      state := next;
      ok := true;
      if text.Some? {
        ok := inner.WriteString(text.value);
      }
    }

    /** A failed sink aborts the write: the lines after the one it failed on
        stay buffered. */
    method Write(p: Bytes) returns (ok: bool)
      modifies this, inner
      ensures inner.reliable ==> ok
      ensures ok ==> (Now(), buf) == Feed(parsers, old(Now()), old(buf) + p)
      ensures !ok ==> exists used :: EndsLine(used) && old(buf) + p == used + buf
      ensures old(inner.written) <= inner.written
    {
      hide NewlineAt, Extracted, Checked, Feed, OnLine, EndsLine;
      buf := buf + p;
      ghost var input := buf;
      ghost var used: Bytes := [];
      while true
        invariant input == used + buf && (used == [] || EndsLine(used))
        invariant Feed(parsers, old(Now()), input) == Feed(parsers, Now(), buf)
        invariant old(inner.written) <= inner.written
        decreases |buf|
      {
        ghost var before, whole := Now(), buf;
        FeedLine(parsers, before, whole);
        var i := NewlineAt(buf);
        if i == |buf| {
          // Incomplete line: read off and put back for the next write.
          return true;
        }
        var raw := buf[..i + 1];
        buf := buf[i + 1..];
        LineTaken(used, whole, i);
        used := used + raw;
        var line := parsers.trim(raw);
        OnTrimmed(parsers, before, raw);
        if |line| == 0 {
          continue;
        }
        ok := ForwardLine(line);
        if !ok {
          return false;
        }
      }
    }

    method Close()
      modifies this, inner
      ensures inner.reliable ==> Now() == OnLine(parsers, old(Now()), old(buf))
      ensures buf == []
      ensures old(inner.written) <= inner.written
    {
      var remaining := parsers.trim(buf);
      if |remaining| > 0 {
        var _ := ForwardLine(remaining);
      }
      buf := [];
    }
  }

  // ---------------------------------------------------------------------
  // One pass over the whole stream
  // ---------------------------------------------------------------------

  /** The newline-separated pieces of s; the last may be unterminated. */
  function Pieces(s: Bytes): seq<Bytes>
    decreases |s|
  {
    var i := NewlineAt(s);
    if i == |s| then [s] else [s[..i]] + Pieces(s[i + 1..])
  }

  function OnLines<S>(ps: Parsers<S>, g: Progress<S>, lines: seq<Bytes>): Progress<S>
    decreases |lines|
  {
    if lines == [] then g else OnLines(ps, OnLine(ps, g, lines[0]), lines[1..])
  }

  /** A stream cut into writes, and then closed, from an empty buffer. */
  function Streamed<S>(ps: Parsers<S>, g: Progress<S>, buf: Bytes, writes: seq<Bytes>): Progress<S>
    decreases |writes|
  {
    if writes == [] then OnLine(ps, g, buf)
    else
      var (g', rest) := Feed(ps, g, buf + writes[0]);
      Streamed(ps, g', rest, writes[1..])
  }

  function Joined(writes: seq<Bytes>): Bytes {
    if writes == [] then [] else writes[0] + Joined(writes[1..])
  }

  lemma NewlineInPrefix(a: Bytes, b: Bytes)
    requires NewlineAt(a) < |a|
    ensures NewlineAt(a + b) == NewlineAt(a)
  {
    var i := NewlineAt(a);
    assert (a + b)[i] == Newline && forall k :: 0 <= k < i ==> (a + b)[k] == a[k];
  }

  /** Feeding two parts is feeding their concatenation. */
  lemma {:induction false} FeedConcat<S>(ps: Parsers<S>, g: Progress<S>, a: Bytes, b: Bytes)
    ensures var (g', rest) := Feed(ps, g, a);
      Feed(ps, g, a + b) == Feed(ps, g', rest + b)
    decreases |a|
  {
    hide OnLine, NewlineAt;
    var i := NewlineAt(a);
    if i < |a| {
      NewlineInPrefix(a, b);
      FeedConcat(ps, OnLine(ps, g, a[..i + 1]), a[i + 1..], b);
      assert (a + b)[..i + 1] == a[..i + 1];
      assert (a + b)[i + 1..] == a[i + 1..] + b;
    }
  }

  /** Feeding everything and closing handles exactly the pieces. */
  lemma {:induction false} FeedThenClose<S>(ps: Parsers<S>, g: Progress<S>, s: Bytes)
    requires TrimsTerminator(ps.trim)
    ensures var (g', rest) := Feed(ps, g, s);
      OnLine(ps, g', rest) == OnLines(ps, g, Pieces(s))
    decreases |s|
  {
    hide Extracted, Checked;
    var i := NewlineAt(s);
    if i == |s| {
      assert OnLines(ps, OnLine(ps, g, s), Pieces(s)[1..]) == OnLine(ps, g, s);
    } else {
      assert s[..i + 1] == s[..i] + [Newline];
      assert OnLine(ps, g, s[..i + 1]) == OnLine(ps, g, s[..i]);
      FeedThenClose(ps, OnLine(ps, g, s[..i]), s[i + 1..]);
      assert Pieces(s)[1..] == Pieces(s[i + 1..]);
    }
  }

  lemma {:induction false} StreamedIsOnePass<S>(ps: Parsers<S>, g: Progress<S>, buf: Bytes, writes: seq<Bytes>)
    requires TrimsTerminator(ps.trim) && Feed(ps, g, buf) == (g, buf)
    ensures Streamed(ps, g, buf, writes) == OnLines(ps, g, Pieces(buf + Joined(writes)))
    decreases |writes|
  {
    hide OnLine;
    var all := buf + Joined(writes);
    if writes == [] {
      assert all == buf;
      FeedThenClose(ps, g, buf);
    } else {
      var (g', rest) := Feed(ps, g, buf + writes[0]);
      FeedSettles(ps, g, buf + writes[0]);
      StreamedIsOnePass(ps, g', rest, writes[1..]);
      FeedConcat(ps, g, buf + writes[0], Joined(writes[1..]));
      assert all == buf + writes[0] + Joined(writes[1..]);
      FeedThenClose(ps, g, all);
      FeedThenClose(ps, g', rest + Joined(writes[1..]));
    }
  }

  /** What Feed leaves holds no complete line. */
  lemma {:induction false} FeedSettles<S>(ps: Parsers<S>, g: Progress<S>, s: Bytes)
    ensures var (g', rest) := Feed(ps, g, s);
      Feed(ps, g', rest) == (g', rest)
    decreases |s|
  {
    var i := NewlineAt(s);
    if i < |s| {
      FeedSettles(ps, OnLine(ps, g, s[..i + 1]), s[i + 1..]);
    }
  }

  /** However a stream is cut into writes, handling it is handling its pieces
      one after the other. */
  lemma StreamedIsPieces<S>(ps: Parsers<S>, g: Progress<S>, writes: seq<Bytes>)
    requires TrimsTerminator(ps.trim)
    ensures Streamed(ps, g, [], writes) == OnLines(ps, g, Pieces(Joined(writes)))
  {
    StreamedIsOnePass(ps, g, [], writes);
    assert [] + Joined(writes) == Joined(writes);
  }

  // ---------------------------------------------------------------------
  // What one pass means
  // ---------------------------------------------------------------------

  function Rejoined(pieces: seq<Bytes>): Bytes
    requires pieces != []
  {
    if |pieces| == 1 then pieces[0] else pieces[0] + [Newline] + Rejoined(pieces[1..])
  }

  /** The pieces hold no newline, and joined by newlines they are the stream. */
  lemma {:induction false} PiecesSplit(s: Bytes)
    ensures Pieces(s) != [] && Rejoined(Pieces(s)) == s
    ensures forall p :: p in Pieces(s) ==> Newline !in p
    decreases |s|
  {
    var i := NewlineAt(s);
    hide NewlineAt;
    if i < |s| {
      var rest := s[i + 1..];
      PiecesSplit(rest);
      assert Pieces(s)[1..] == Pieces(rest);
      assert s == s[..i] + [Newline] + rest;
    }
  }

  /** The trimmed pieces that are not empty. */
  function Lines(trim: Bytes -> Bytes, pieces: seq<Bytes>): seq<Bytes> {
    if pieces == [] then []
    else (if trim(pieces[0]) == [] then [] else [trim(pieces[0])]) + Lines(trim, pieces[1..])
  }

  /** Reading one line: the check for a result comes first, then the
      extraction, and each hands its parser state on. */
  ghost predicate ReadsLine<S>(ps: Parsers<S>, line: Bytes, state: S, reason: string, text: Option<Bytes>, state': S) {
    var checked := if ps.check.Some? then ps.check.value(state, line) else (state, "");
    reason == checked.1 && (state', text) == ps.extract(checked.0, line)
  }

  /** Reading the lines in order. */
  ghost predicate Reads<S>(ps: Parsers<S>, lines: seq<Bytes>, states: seq<S>, reasons: seq<string>,
                           texts: seq<Option<Bytes>>)
  {
    && |states| == |lines| + 1 && |reasons| == |texts| == |lines|
    && forall i :: 0 <= i < |lines| ==> ReadsLine(ps, lines[i], states[i], reasons[i], texts[i], states[i + 1])
  }

  /** The texts found, in order. */
  function Written(texts: seq<Option<Bytes>>): Bytes {
    if texts == [] then []
    else Written(texts[..|texts| - 1]) + match texts[|texts| - 1] case Some(text) => text case None => []
  }

  ghost predicate LastReasonAt(reasons: seq<string>, i: int) {
    0 <= i < |reasons| && reasons[i] != "" && forall j :: i < j < |reasons| ==> reasons[j] == ""
  }

  /** r is the last reason found, or the old one when none was. */
  ghost predicate LastReason(reasons: seq<string>, before: string, r: string) {
    || (exists i :: LastReasonAt(reasons, i) && r == reasons[i])
    || (r == before && forall i :: 0 <= i < |reasons| ==> reasons[i] == "")
  }

  ghost predicate ReadTo<S>(ps: Parsers<S>, g: Progress<S>, lines: seq<Bytes>, states: seq<S>, reasons: seq<string>,
                            texts: seq<Option<Bytes>>, g': Progress<S>)
  {
    && Reads(ps, lines, states, reasons, texts) && states[0] == g.state && states[|lines|] == g'.state
    && g'.written == g.written + Written(texts)
    && LastReason(reasons, g.stopReason, g'.stopReason)
  }

  lemma ReadsSnoc<S>(ps: Parsers<S>, lines: seq<Bytes>, states: seq<S>, reasons: seq<string>,
                     texts: seq<Option<Bytes>>, line: Bytes, state: S, reason: string, text: Option<Bytes>)
    requires Reads(ps, lines, states, reasons, texts)
    requires ReadsLine(ps, line, states[|lines|], reason, text, state)
    ensures Reads(ps, lines + [line], states + [state], reasons + [reason], texts + [text])
  {
    hide ReadsLine;
    var n := |lines|;
    var ls, ss, rs, ts := lines + [line], states + [state], reasons + [reason], texts + [text];
    forall i | 0 <= i < |ls| ensures ReadsLine(ps, ls[i], ss[i], rs[i], ts[i], ss[i + 1]) {
      if i < n {
        assert ls[i] == lines[i] && ss[i] == states[i] && ss[i + 1] == states[i + 1];
        assert rs[i] == reasons[i] && ts[i] == texts[i];
      } else {
        assert ls[i] == line && ss[i] == states[n] && ss[i + 1] == state && rs[i] == reason && ts[i] == text;
      }
    }
  }

  lemma WrittenSnoc(texts: seq<Option<Bytes>>, text: Option<Bytes>)
    ensures Written(texts + [text]) == Written(texts) + match text case Some(t) => t case None => []
  {
    assert (texts + [text])[..|texts|] == texts;
  }

  lemma LastReasonSnoc(reasons: seq<string>, before: string, r: string, reason: string)
    requires LastReason(reasons, before, r)
    ensures LastReason(reasons + [reason], before, if reason != "" then reason else r)
  {
    var all := reasons + [reason];
    if reason != "" {
      assert LastReasonAt(all, |reasons|);
    } else if i :| LastReasonAt(reasons, i) && r == reasons[i] {
      assert LastReasonAt(all, i) && all[i] == r;
    }
  }

  lemma {:induction false} OnLinesReads<S>(ps: Parsers<S>, g: Progress<S>, pieces: seq<Bytes>)
    returns (states: seq<S>, reasons: seq<string>, texts: seq<Option<Bytes>>)
    ensures ReadTo(ps, g, Lines(ps.trim, pieces), states, reasons, texts, OnLines(ps, g, pieces))
    decreases |pieces|
  {
    if pieces == [] {
      states, reasons, texts := [g.state], [], [];
    } else {
      hide OnLine, Reads, LastReason;
      var init, last := pieces[..|pieces| - 1], pieces[|pieces| - 1];
      OnLinesSnoc(ps, g, init, last);
      LinesSnoc(ps.trim, init, last);
      assert pieces == init + [last];
      states, reasons, texts := OnLinesReads(ps, g, init);
      states, reasons, texts := OneMoreLine(ps, g, Lines(ps.trim, init), states, reasons, texts,
                                            OnLines(ps, g, init), last);
    }
  }

  lemma OneMoreLine<S>(ps: Parsers<S>, g: Progress<S>, lines: seq<Bytes>, states: seq<S>, reasons: seq<string>,
                       texts: seq<Option<Bytes>>, g1: Progress<S>, raw: Bytes)
    returns (states': seq<S>, reasons': seq<string>, texts': seq<Option<Bytes>>)
    requires ReadTo(ps, g, lines, states, reasons, texts, g1)
    ensures var line := ps.trim(raw);
      ReadTo(ps, g, lines + if line == [] then [] else [line], states', reasons', texts', OnLine(ps, g1, raw))
  {
    var line := ps.trim(raw);
    states', reasons', texts' := states, reasons, texts;
    assert |states| == |lines| + 1 && |texts| == |reasons| == |lines|;
    OnTrimmed(ps, g1, raw);
    hide Reads, OnLine, LastReason, Written;
    if line == [] {
      assert lines + [] == lines;
    } else {
      var checked := if ps.check.Some? then ps.check.value(states[|lines|], line) else (states[|lines|], "");
      var (state, text) := ps.extract(checked.0, line);
      ReadsSnoc(ps, lines, states, reasons, texts, line, state, checked.1, text);
      LastReasonSnoc(reasons, g.stopReason, g1.stopReason, checked.1);
      states', reasons', texts' := states + [state], reasons + [checked.1], texts + [text];
      WrittenSnoc(texts, text);
      var more := match text case Some(t) => t case None => [];
      assert g.written + (Written(texts) + more) == g.written + Written(texts) + more;
      assert g.written + Written(texts) + [] == g.written + Written(texts);
    }
  }

  lemma {:induction false} OnLinesSnoc<S>(ps: Parsers<S>, g: Progress<S>, init: seq<Bytes>, last: Bytes)
    ensures OnLines(ps, g, init + [last]) == OnLine(ps, OnLines(ps, g, init), last)
    decreases |init|
  {
    hide OnLine;
    if init == [] {
      assert (init + [last])[1..] == [];
    } else {
      assert (init + [last])[1..] == init[1..] + [last];
      OnLinesSnoc(ps, OnLine(ps, g, init[0]), init[1..], last);
    }
  }

  lemma {:induction false} LinesSnoc(trim: Bytes -> Bytes, init: seq<Bytes>, last: Bytes)
    ensures Lines(trim, init + [last]) == Lines(trim, init) + if trim(last) == [] then [] else [trim(last)]
  {
    if init == [] {
      assert (init + [last])[1..] == [];
    } else {
      assert (init + [last])[1..] == init[1..] + [last];
      LinesSnoc(trim, init[1..], last);
    }
  }

  /** The readings of the lines are determined by the first state. */
  lemma {:induction false} ReadsUnique<S>(ps: Parsers<S>, lines: seq<Bytes>,
                                          s1: seq<S>, r1: seq<string>, t1: seq<Option<Bytes>>,
                                          s2: seq<S>, r2: seq<string>, t2: seq<Option<Bytes>>, n: nat)
    requires Reads(ps, lines, s1, r1, t1) && Reads(ps, lines, s2, r2, t2) && s1[0] == s2[0] && n <= |lines|
    ensures s1[..n + 1] == s2[..n + 1] && r1[..n] == r2[..n] && t1[..n] == t2[..n]
  {
    if n > 0 {
      ReadsUnique(ps, lines, s1, r1, t1, s2, r2, t2, n - 1);
      assert s1[..n][n - 1] == s2[..n][n - 1];
      assert s1[..n + 1] == s1[..n] + [s1[n]] && s2[..n + 1] == s2[..n] + [s2[n]];
      assert r1[..n] == r1[..n - 1] + [r1[n - 1]] && r2[..n] == r2[..n - 1] + [r2[n - 1]];
      assert t1[..n] == t1[..n - 1] + [t1[n - 1]] && t2[..n] == t2[..n - 1] + [t2[n - 1]];
    }
  }

  /** Chunk independence: for every way to cut a stream into writes, what is
      written is the texts found in its non-empty trimmed lines, in order; the
      stop reason is the last one found in them; and the parsers end in the
      state that reading them leaves. */
  lemma ChunkingIsInvisible<S>(ps: Parsers<S>, g: Progress<S>, writes: seq<Bytes>,
                               states: seq<S>, reasons: seq<string>, texts: seq<Option<Bytes>>)
    requires TrimsTerminator(ps.trim)
    requires Reads(ps, Lines(ps.trim, Pieces(Joined(writes))), states, reasons, texts) && states[0] == g.state
    ensures var g' := Streamed(ps, g, [], writes);
      && g'.written == g.written + Written(texts)
      && LastReason(reasons, g.stopReason, g'.stopReason)
      && g'.state == states[|states| - 1]
  {
    hide Reads, LastReason, OnLines;
    var lines := Lines(ps.trim, Pieces(Joined(writes)));
    StreamedIsPieces(ps, g, writes);
    var s, r, t := OnLinesReads(ps, g, Pieces(Joined(writes)));
    SameReading(ps, lines, states, reasons, texts, s, r, t);
  }

  lemma SameReading<S>(ps: Parsers<S>, lines: seq<Bytes>, s1: seq<S>, r1: seq<string>, t1: seq<Option<Bytes>>,
                       s2: seq<S>, r2: seq<string>, t2: seq<Option<Bytes>>)
    requires Reads(ps, lines, s1, r1, t1) && Reads(ps, lines, s2, r2, t2) && s1[0] == s2[0]
    ensures s1 == s2 && r1 == r2 && t1 == t2 && |s1| == |lines| + 1
  {
    ReadsUnique(ps, lines, s1, r1, t1, s2, r2, t2, |lines|);
    assert s1 == s1[..|lines| + 1] && s2 == s2[..|lines| + 1];
    assert r1 == r1[..|lines|] && r2 == r2[..|lines|] && t1 == t1[..|lines|] && t2 == t2[..|lines|];
  }
}
