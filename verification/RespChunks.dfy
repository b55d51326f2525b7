/** The incremental parser against the reference reader, for every byte stream and every way of cutting it. */
module RespChunks {
  import opened Base
  import opened Decimal
  import opened Resp
  import opened RespReader

  function Fresh(input: Bytes): Reader {
    Reader(Type, [], input)
  }

  /** The bytes of the buffer from where the current token starts. */
  function Unconsumed(p: Parser): Bytes
    requires Valid(p)
  {
    if p.status.Type? then p.buf[p.cur..] else p.buf[p.start..]
  }

  /** `p` is what reading `consumed` leaves, with `delivered` already handed on. */
  ghost predicate Reached(p: Parser, consumed: Bytes, delivered: seq<RespType>) {
    && Valid(p)
    && var (stack, out) := PopCompleted(p.stack, p.completed);
       Read(Fresh(consumed)) == Reading(delivered + out, Reader(p.status, stack, []), false)
  }

  lemma ReadNothing(r: Reader)
    requires StatusFits(r.status, r.stack) && r.input == []
    ensures var (stack, out) := PopCompleted(r.stack, []);
            Read(r) == Reading(out, Reader(r.status, stack, []), false)
  {
    PopKeepsStatus(r);
  }

  lemma FreshFits(input: Bytes)
    ensures StatusFits(Fresh(input).status, Fresh(input).stack)
  {
  }

  /** Consuming one token more keeps `Reached`. */
  lemma TokenConsumed(p: Parser, q: Parser, consumed: Bytes, delivered: seq<RespType>, token: Bytes)
    requires Reached(p, consumed, delivered) && Popped(p) == p
    requires Valid(q) && q.completed == p.completed
    requires var t := ReadToken(Reader(p.status, p.stack, token)); var next := Reader(q.status, q.stack, []);
             t == Whole(next) || (t == Partial(next) && q.stack == p.stack)
    ensures Reached(q, consumed + token, delivered)
  {
    FreshFits(consumed);
    hide ReadToken, StatusFits, Valid;
    var r := Reader(p.status, p.stack, token);
    assert PopCompleted(p.stack, p.completed) == (p.stack, p.completed);
    ReadInTwoParts(Fresh(consumed), token);
    assert [] + token == token;
    assert More(Fresh(consumed), token) == Fresh(consumed + token);
    PopAppends(p.stack, p.completed);
    PopAppends(q.stack, q.completed);
    var (stack, out) := PopCompleted(q.stack, []);
    assert PopCompleted(r.stack, []) == (r.stack, []);
    var next := Reader(q.status, q.stack, []);
    assert StatusFits(q.status, q.stack) by { assert Valid(q); }
    ReadNothing(next);
    assert Read(r) == Reading(out, Reader(q.status, stack, []), false);
    assert delivered + p.completed + out == delivered + (p.completed + out);
  }

  /** The token one round of the loop consumes. */
  function Consumed(p: Parser, q: Parser): Bytes
    requires Valid(p) && Valid(q) && |Unconsumed(q)| <= |Unconsumed(p)|
  {
    Unconsumed(p)[..|Unconsumed(p)| - |Unconsumed(q)|]
  }

  /** One round consumes nothing, or exactly one token of the reference reader; it fails where the reader does. */
  ghost predicate RoundIsToken(p: Parser, next: Next)
    requires Valid(p)
  {
    && Valid(next.p)
    && next.p.completed == p.completed
    && match next
       case Fail(_) => ReadToken(Reader(p.status, p.stack, Unconsumed(p))) == Malformed
       case Stop(q) => q.status == p.status && q.stack == p.stack && Unconsumed(q) == Unconsumed(p)
       case Continue(q) =>
         && |Unconsumed(q)| <= |Unconsumed(p)|
         && Unconsumed(p) == Consumed(p, q) + Unconsumed(q)
         && var t := ReadToken(Reader(p.status, p.stack, Consumed(p, q)));
            || (q.status == p.status && q.stack == p.stack && Consumed(p, q) == [])
            || t == Whole(Reader(q.status, q.stack, []))
            || (t == Partial(Reader(q.status, q.stack, [])) && q.stack == p.stack)
  }

  lemma TypeRound(p: Parser)
    requires Valid(p) && p.cur < |p.buf| && p.status.Type?
    ensures RoundIsToken(p, AdvanceType(p))
  {
    hide MatchPrefix, FindPrefix, StatusAfterPrefix;
    var i := FindPrefix(p.buf, p.cur);
    AdvanceProgress(p);
    var q := AdvanceType(p).p;
    var token := Consumed(p, q);
    FindPrefixIs(p.buf, p.cur, i);
    if i == |p.buf| {
      assert token == p.buf[p.cur..];
      FindPrefixIs(token, 0, |token|);
    } else {
      assert token == p.buf[p.cur..i + 1];
      FindPrefixIs(token, 0, i - p.cur);
    }
  }

  lemma SliceNewLine(s: Bytes, low: nat, high: nat, j: nat)
    requires low <= high <= |s|
    ensures NewLineAt(s[low..high], j) <==> low + j + 1 < high && NewLineAt(s, low + j)
  {
  }

  /** Scanning on from the cursor finds what scanning the whole token would. */
  lemma LineFound(p: Parser)
    requires Valid(p) && p.cur < |p.buf| && (p.status.Header? || p.status.Line?)
    ensures match FindNewLine(p.buf, p.cur)
            case None => FindNewLine(Unconsumed(p), 0) == None
            case Some(i) => NewLineFirst(p.buf, p.start, i, |p.buf|) && NewLineFirst(p.buf, p.start, i, i + 2)
  {
    hide FindNewLine, NewLineAt;
    match FindNewLine(p.buf, p.cur)
    case Some(i) =>
      assert i + 2 <= |p.buf| by { assert NewLineAt(p.buf, i); HasTwo(p.buf, i); }
      LineInSlice(p, i, |p.buf|);
      LineInSlice(p, i, i + 2);
    case None =>
      var all := Unconsumed(p);
      assert p.buf[p.start..|p.buf|] == all;
      forall j: nat
        ensures !NewLineAt(all, j)
      {
        SliceNewLine(p.buf, p.start, |p.buf|, j);
      }
      NoNewLineFound(all);
  }

  lemma NewLineFound(s: Bytes, i: nat)
    requires NewLineAt(s, i) && forall j: nat :: j < i ==> !NewLineAt(s, j)
    ensures FindNewLine(s, 0) == Some(i)
  {
  }

  lemma NoNewLineFound(s: Bytes)
    requires forall j: nat :: !NewLineAt(s, j)
    ensures FindNewLine(s, 0) == None
  {
  }

  lemma HasTwo(s: Bytes, i: nat)
    requires NewLineAt(s, i)
    ensures i + 2 <= |s|
  {
  }

  /** `i` is where the first line of `s[start..end]` ends. */
  ghost predicate NewLineFirst(s: Bytes, start: nat, i: nat, end: nat) {
    && start <= i && i + 2 <= end <= |s|
    && FindNewLine(s[start..end], 0) == Some(i - start)
    && s[start..end][..i - start] == s[start..i]
  }

  lemma LineInSlice(p: Parser, i: nat, end: nat)
    requires Valid(p) && (p.status.Header? || p.status.Line?)
    requires FindNewLine(p.buf, p.cur) == Some(i) && i + 2 <= end <= |p.buf|
    ensures NewLineFirst(p.buf, p.start, i, end)
  {
    hide FindNewLine, NewLineAt;
    var slice := p.buf[p.start..end];
    SliceNewLine(p.buf, p.start, end, i - p.start);
    forall j: nat | j < i - p.start
      ensures !NewLineAt(slice, j)
    {
      SliceNewLine(p.buf, p.start, end, j);
    }
    NewLineFound(slice, i - p.start);
  }

  lemma HeaderRound(p: Parser)
    requires Valid(p) && p.cur < |p.buf| && p.status.Header?
    ensures RoundIsToken(p, AdvanceHeader(p))
  {
    hide FindNewLine, ParseUsize, NewLineAt, NoNewLineBefore;
    LineFound(p);
    AdvanceHeaderProgress(p);
    assert Unconsumed(p) == p.buf[p.start..|p.buf|];
    if FindNewLine(p.buf, p.cur).Some? {
      var i := FindNewLine(p.buf, p.cur).value;
      if ParseUsize(p.buf[p.start..i]).Some? {
        assert Consumed(p, AdvanceHeader(p).p) == p.buf[p.start..i + 2];
      }
    }
  }

  lemma LineRound(p: Parser)
    requires Valid(p) && p.cur < |p.buf| && p.status.Line?
    ensures RoundIsToken(p, AdvanceLine(p))
  {
    hide FindNewLine, NewLineAt, NoNewLineBefore;
    LineFound(p);
    AdvanceLineProgress(p);
    assert Unconsumed(p) == p.buf[p.start..|p.buf|];
    if FindNewLine(p.buf, p.cur).Some? {
      var i := FindNewLine(p.buf, p.cur).value;
      if SetValue(Top(p.stack), p.buf[p.start..i]).Some? {
        assert Consumed(p, AdvanceLine(p).p) == p.buf[p.start..i + 2];
      }
    }
  }

  lemma BulkRound(p: Parser, n: nat)
    requires Valid(p) && p.cur < |p.buf| && p.status == Bulk(n)
    ensures RoundIsToken(p, AdvanceBulk(p, n))
  {
    AdvanceBulkProgress(p, n);
    var q := AdvanceBulk(p, n).p;
    if q.status.Type? {
      var token := p.buf[..n + 2];
      assert Consumed(p, q) == token;
      assert NewLineAt(token, n) <==> NewLineAt(p.buf, n);
      assert token[..n] == p.buf[..n];
    }
  }

  lemma Round(p: Parser)
    requires Valid(p) && p.cur < |p.buf|
    ensures RoundIsToken(p, Advance(p))
  {
    match p.status
    case Type => TypeRound(p);
    case Header => HeaderRound(p);
    case Line => LineRound(p);
    case Bulk(n) => BulkRound(p, n);
  }

  /** What `parse` owes: it has consumed more of the stream and stays `Reached`, or the stream is malformed. */
  ghost predicate Keeps(p: Parser, consumed: Bytes, delivered: seq<RespType>, q: Parser, ok: bool, consumed': Bytes, delivered': seq<RespType>)
    requires Valid(p) && Valid(q)
  {
    var all := consumed + Unconsumed(p);
    if ok then Reached(q, consumed', delivered') && all == consumed' + Unconsumed(q)
    else
      && StatusFits(Type, [])
      && var reading := Read(Fresh(all)); reading.failed && reading.out == delivered'
  }

  /** `parse` has nothing more to do: the stack is settled, and the cursor is at the end or no line is complete. */
  ghost predicate Quiet(p: Parser) {
    && p.completed == []
    && PopCompleted(p.stack, []) == (p.stack, [])
    && (p.cur < |p.buf| ==> (p.status.Header? || p.status.Line?) && FindNewLine(p.buf, p.cur) == None)
  }

  lemma ReachedPopped(p: Parser, consumed: Bytes, delivered: seq<RespType>)
    requires Reached(p, consumed, delivered)
    ensures Valid(Popped(p)) && Reached(Popped(p), consumed, delivered) && Unconsumed(Popped(p)) == Unconsumed(p)
    ensures Popped(Popped(p)) == Popped(p)
  {
    PoppedValid(p);
    PopAppends(p.stack, p.completed);
    PopAppends(Popped(p).stack, Popped(p).completed);
  }

  lemma {:induction false} ParseKeeps(p: Parser, consumed: Bytes, delivered: seq<RespType>) returns (consumed': Bytes)
    requires Reached(p, consumed, delivered)
    ensures var (q, ok) := Parse(p);
            && Keeps(p, consumed, delivered, q, ok, consumed', delivered)
            && (ok ==> q.completed != [] || Quiet(q))
    decreases Unread(p), Rank(p.status)
  {
    hide Advance, Reached, RoundIsToken;
    ReachedPopped(p, consumed, delivered);
    var q := Popped(p);
    if q.completed != [] || q.cur >= |q.buf| {
      consumed' := consumed;
    } else {
      AdvanceProgress(q);
      consumed' := RoundKeeps(q, consumed, delivered);
      if Advance(q).Continue? {
        consumed' := ParseKeeps(Advance(q).p, consumed', delivered);
      }
    }
  }

  lemma RoundKeeps(p: Parser, consumed: Bytes, delivered: seq<RespType>) returns (consumed': Bytes)
    requires Reached(p, consumed, delivered) && Popped(p) == p && p.completed == [] && p.cur < |p.buf|
    ensures Valid(Advance(p).p)
    ensures Keeps(p, consumed, delivered, Advance(p).p, !Advance(p).Fail?, consumed', delivered)
    ensures Advance(p).Stop? ==> Quiet(Advance(p).p)
  {
    Round(p);
    consumed' := consumed;
    match Advance(p)
    case Fail(q) =>
      MalformedEnds(p, consumed, delivered);
    case Stop(q) =>
      StopIsQuiet(p);
    case Continue(q) =>
      hide Advance, ReadToken, Valid;
      consumed' := consumed + Consumed(p, q);
      assert consumed + Unconsumed(p) == consumed' + Unconsumed(q);
      if q.status == p.status && q.stack == p.stack && Consumed(p, q) == [] {
        assert consumed' == consumed;
      } else {
        TokenConsumed(p, q, consumed, delivered, Consumed(p, q));
      }
  }

  lemma StopIsQuiet(p: Parser)
    requires Valid(p) && Popped(p) == p && p.completed == [] && p.cur < |p.buf| && Advance(p).Stop?
    ensures Quiet(Advance(p).p)
  {
  }

  lemma MalformedEnds(p: Parser, consumed: Bytes, delivered: seq<RespType>)
    requires Reached(p, consumed, delivered) && Popped(p) == p && p.completed == []
    requires ReadToken(Reader(p.status, p.stack, Unconsumed(p))) == Malformed
    ensures StatusFits(Type, [])
    ensures Read(Fresh(consumed + Unconsumed(p))) == Reading(delivered, IDLE, true)
  {
    FreshFits(consumed);
    hide ReadToken, StatusFits;
    var r := Reader(p.status, p.stack, Unconsumed(p));
    ReadInTwoParts(Fresh(consumed), Unconsumed(p));
    assert [] + Unconsumed(p) == Unconsumed(p);
    assert More(Fresh(consumed), Unconsumed(p)) == Fresh(consumed + Unconsumed(p));
    assert Read(r) == Reading([], IDLE, true);
    assert delivered + [] + [] == delivered;
  }

  /** A bulk body is complete in the buffer, yet the cursor waits at its end. */
  predicate Late(p: Parser) {
    p.status.Bulk? && |p.buf| == p.status.n + 2
  }

  lemma QuietIsPartial(p: Parser)
    requires Valid(p) && Quiet(p)
    ensures !Late(p) ==>
              var r := Reader(p.status, p.stack, Unconsumed(p));
              ReadToken(r).Partial? && Read(r).out == [] && !Read(r).failed && SameRest(p, Read(r).rest)
    ensures Late(p) ==>
              var r := Reader(p.status, p.stack, Unconsumed(p)[..|Unconsumed(p)| - 1]);
              ReadToken(r).Partial? && Read(r).out == [] && !Read(r).failed
  {
    match p.status
    case Type =>
    case Header => QuietLine(p);
    case Line => QuietLine(p);
    case Bulk(n) =>
  }

  lemma QuietLine(p: Parser)
    requires Valid(p) && Quiet(p) && (p.status.Header? || p.status.Line?)
    ensures FindNewLine(Unconsumed(p), 0) == None
  {
    if p.cur < |p.buf| {
      LineFound(p);
    } else {
      var all := Unconsumed(p);
      assert p.buf[p.start..|p.buf|] == all;
      forall j: nat
        ensures !NewLineAt(all, j)
      {
        SliceNewLine(p.buf, p.start, |p.buf|, j);
      }
      NoNewLineFound(all);
    }
  }

  // ----- The read loop

  lemma {:induction false} DeliverKeeps(p: Parser, consumed: Bytes, delivered: seq<RespType>) returns (consumed': Bytes)
    requires Valid(p) && Reached(p, consumed, delivered)
    ensures var (q, out, ok) := Deliver(p);
            && Keeps(p, consumed, delivered, q, ok, consumed', delivered + out)
            && (ok ==> Quiet(q))
    decreases Unread(p), Rank(p.status), |p.stack| + |p.completed|
  {
    hide Parse, PopCompleted, Quiet, Reached, StatusFits, Read;
    var (q, ok) := Parse(p);
    consumed' := ParseKeeps(p, consumed, delivered);
    assert delivered + [] == delivered;
    if ok && q.completed != [] {
      var next := q.(completed := q.completed[1..]);
      HandedOn(q, consumed', delivered);
      consumed' := DeliverKeeps(next, consumed', delivered + [q.completed[0]]);
      var out := Deliver(next).1;
      assert delivered + ([q.completed[0]] + out) == delivered + [q.completed[0]] + out;
    }
  }

  lemma HandedOn(q: Parser, consumed: Bytes, delivered: seq<RespType>)
    requires Reached(q, consumed, delivered) && q.completed != []
    ensures Reached(q.(completed := q.completed[1..]), consumed, delivered + [q.completed[0]])
    ensures Unconsumed(q.(completed := q.completed[1..])) == Unconsumed(q)
  {
    PopAppends(q.stack, q.completed);
    PopAppends(q.stack, q.completed[1..]);
    var out := PopCompleted(q.stack, []).1;
    assert delivered + (q.completed + out) == delivered + [q.completed[0]] + (q.completed[1..] + out);
  }

  function Concat(chunks: seq<Bytes>): Bytes {
    if chunks == [] then [] else Concat(chunks[..|chunks| - 1]) + chunks[|chunks| - 1]
  }

  /** Feeds the chunks one by one, delivering after each, until one fails. */
  function Receive(chunks: seq<Bytes>): (r: (Parser, seq<RespType>, bool))
    ensures if r.2 then Valid(r.0) else r.0.status.Type?
  {
    if chunks == [] then (NEW, [], true)
    else
      var (p, out, ok) := Receive(chunks[..|chunks| - 1]);
      if !ok then (p, out, false)
      else
        FeedValid(p, chunks[|chunks| - 1]);
        var (q, more, ok') := Deliver(Feed(p, chunks[|chunks| - 1]));
        (q, out + more, ok')
  }

  lemma FeedReached(p: Parser, data: Bytes, consumed: Bytes, delivered: seq<RespType>)
    requires Reached(p, consumed, delivered)
    ensures Reached(Feed(p, data), consumed, delivered)
    ensures Unconsumed(Feed(p, data)) == Unconsumed(p) + data
  {
    FeedValid(p, data);
  }

  /** After any pieces: what is consumed and handed on agree, or the stream so far is malformed. */
  ghost predicate InStep(chunks: seq<Bytes>, consumed: Bytes) {
    var (p, out, ok) := Receive(chunks);
    if ok then Reached(p, consumed, out) && Concat(chunks) == consumed + Unconsumed(p) && Quiet(p)
    else
      && StatusFits(Type, [])
      && var reading := Read(Fresh(Concat(chunks))); reading.failed && reading.out == out
  }

  lemma {:induction false} ReceiveInStep(chunks: seq<Bytes>) returns (consumed: Bytes)
    ensures InStep(chunks, consumed)
  {
    if chunks == [] {
      consumed := [];
      ReadNothing(Fresh([]));
    } else {
      consumed := ReceiveInStep(chunks[..|chunks| - 1]);
      consumed := OneChunkMore(chunks, consumed);
    }
  }

  lemma OneChunkMore(chunks: seq<Bytes>, consumed: Bytes) returns (consumed': Bytes)
    requires chunks != [] && InStep(chunks[..|chunks| - 1], consumed)
    ensures InStep(chunks, consumed')
  {
    FreshFits([]);
    hide Reached, Read, Quiet, Deliver, StatusFits;
    var earlier, last := chunks[..|chunks| - 1], chunks[|chunks| - 1];
    consumed' := consumed;
    var (p, out, ok) := Receive(earlier);
    if ok {
      FeedReached(p, last, consumed, out);
      assert Concat(chunks) == consumed + Unconsumed(Feed(p, last));
      hide Concat, Unconsumed;
      consumed' := DeliverKeeps(Feed(p, last), consumed, out);
    } else {
      FailureIsFinal(Concat(earlier), last);
    }
  }

  lemma FailureIsFinal(stream: Bytes, more: Bytes)
    requires StatusFits(Type, []) && Read(Fresh(stream)).failed
    ensures Read(Fresh(stream + more)).failed && Read(Fresh(stream + more)).out == Read(Fresh(stream)).out
  {
    ReadInTwoParts(Fresh(stream), more);
    assert More(Fresh(stream), more) == Fresh(stream + more);
  }

  lemma ReadOn(consumed: Bytes, r: Reader, out: seq<RespType>, more: Bytes)
    requires StatusFits(r.status, r.stack) && r.input == []
    requires StatusFits(Type, []) && Read(Fresh(consumed)) == Reading(out, r, false)
    ensures Read(Fresh(consumed + more)) == Then(Reading(out, r, false), Read(More(r, more)))
  {
    ReadInTwoParts(Fresh(consumed), more);
    assert More(Fresh(consumed), more) == Fresh(consumed + more);
  }

  /** Every cutting of every stream: never anything but a prefix of what the whole stream reads as, never more than a byte late. */
  lemma AnyCutting(chunks: seq<Bytes>)
    ensures var (p, out, ok) := Receive(chunks);
            var stream := Concat(chunks);
            var whole := Read(Fresh(stream));
            && out <= whole.out
            && (!ok ==> whole.failed && out == whole.out)
            && (ok && !Late(p) ==> !whole.failed && out == whole.out && SameRest(p, whole.rest))
            && (ok && stream != [] ==>
                  var allButOne := Read(Fresh(stream[..|stream| - 1]));
                  !allButOne.failed && allButOne.out <= out)
  {
    var (p, out, ok) := Receive(chunks);
    var consumed := ReceiveInStep(chunks);
    hide Read, Receive, Concat;
    if ok {
      if Late(p) {
        LateReading(p, consumed, out);
      } else {
        PunctualReading(p, consumed, out);
        if Concat(chunks) != [] {
          OneByteLess(Concat(chunks));
        }
      }
    }
  }

  /** The parser waits for the same token with the same unfinished values, and no byte of a next one is unread. */
  ghost predicate SameRest(p: Parser, rest: Reader) {
    && p.status == rest.status && p.stack == rest.stack
    && (p.status.Type? ==> p.cur == |p.buf|)
    && (p.status.Bulk? ==> p.buf == rest.input)
  }

  lemma PunctualReading(p: Parser, consumed: Bytes, out: seq<RespType>)
    requires Reached(p, consumed, out) && Quiet(p) && !Late(p)
    ensures var whole := Read(Fresh(consumed + Unconsumed(p)));
            whole.out == out && !whole.failed && SameRest(p, whole.rest)
  {
    ReachedReading(p, consumed, out);
    QuietIsPartial(p);
    FreshFits(consumed);
    assert Valid(p);
    hide Read, ReadToken, Reached, Quiet, SameRest, Unconsumed, Late, StatusFits;
    var rest := Unconsumed(p);
    var r := Reader(p.status, p.stack, []);
    assert StatusFits(r.status, r.stack) by { assert Valid(p); }
    hide Valid;
    ReadOn(consumed, r, out, rest);
    assert [] + rest == rest;
    assert More(r, rest) == Reader(p.status, p.stack, rest);
    assert out + [] == out;
  }

  lemma LateReading(p: Parser, consumed: Bytes, out: seq<RespType>)
    requires Valid(p) && Reached(p, consumed, out) && Quiet(p) && Late(p)
    requires StatusFits(Type, [])
    ensures var stream := consumed + Unconsumed(p);
            && |stream| > 0
            && out <= Read(Fresh(stream)).out
            && var shorter := Read(Fresh(stream[..|stream| - 1])); shorter.out == out && !shorter.failed
  {
    hide *;
    ReachedReading(p, consumed, out);
    var rest := Unconsumed(p);
    LateRest(p);
    WithoutLast(consumed, rest);
    ResumedReading(p, consumed, out, rest);
    ResumedReading(p, consumed, out, rest[..|rest| - 1]);
  }

  lemma LateRest(p: Parser)
    requires Valid(p) && Quiet(p) && Late(p)
    ensures StatusFits(p.status, p.stack) && Unconsumed(p) != []
    ensures var rest := Read(Reader(p.status, p.stack, Unconsumed(p)[..|Unconsumed(p)| - 1])); rest.out == [] && !rest.failed
  {
    QuietIsPartial(p);
  }

  lemma WithoutLast(a: Bytes, b: Bytes)
    requires b != []
    ensures (a + b)[..|a + b| - 1] == a + b[..|b| - 1]
  {
  }

  lemma ResumedReading(p: Parser, consumed: Bytes, out: seq<RespType>, more: Bytes)
    requires StatusFits(p.status, p.stack)
    requires Read(Fresh(consumed)) == Reading(out, Reader(p.status, p.stack, []), false)
    ensures var later := Read(Reader(p.status, p.stack, more));
            Read(Fresh(consumed + more)).out == out + later.out && Read(Fresh(consumed + more)).failed == later.failed
  {
    hide Read, StatusFits;
    var r := Reader(p.status, p.stack, []);
    ReadOn(consumed, r, out, more);
    assert More(r, more) == Reader(p.status, p.stack, more);
  }

  lemma ReachedReading(p: Parser, consumed: Bytes, out: seq<RespType>)
    requires Reached(p, consumed, out) && Quiet(p)
    ensures Read(Fresh(consumed)) == Reading(out, Reader(p.status, p.stack, []), false)
  {
    PopAppends(p.stack, p.completed);
    assert out + [] == out;
  }

  lemma OneByteLess(stream: Bytes)
    requires StatusFits(Type, []) && stream != []
    ensures var shorter := Read(Fresh(stream[..|stream| - 1]));
            shorter.out <= Read(Fresh(stream)).out && (shorter.failed ==> Read(Fresh(stream)).failed)
  {
    var n := |stream| - 1;
    assert stream[..n] + stream[n..] == stream;
    ReadInTwoParts(Fresh(stream[..n]), stream[n..]);
    assert More(Fresh(stream[..n]), stream[n..]) == Fresh(stream);
  }

  // ----- Single rounds

  lemma ParseGoesOn(p: Parser, q: Parser)
    requires Valid(p) && Popped(p) == p && p.completed == [] && p.cur < |p.buf| && Advance(p) == Continue(q)
    ensures Valid(q) && Parse(p) == Parse(q)
  {
    AdvanceProgress(p);
  }

  lemma ParseWaits(p: Parser)
    requires Valid(p) && Popped(p) == p && p.completed == [] && p.cur >= |p.buf|
    ensures Parse(p) == (p, true) && Deliver(p) == (p, [], true)
  {
  }

  // ----- One feed is never late

  /** A bulk body is untouched, or read up to the end of the buffer and not all there. */
  predicate Steady(p: Parser) {
    p.status.Bulk? ==> p.cur == 0 || p.cur == |p.buf| < p.status.n + 2
  }

  lemma {:induction false} ParseSteady(p: Parser)
    requires Valid(p) && Steady(p)
    ensures Steady(Parse(p).0)
    decreases Unread(p), Rank(p.status)
  {
    PoppedValid(p);
    PopCompletedShrinks(p.stack, p.completed);
    var q := Popped(p);
    if q.completed == [] && q.cur < |q.buf| {
      RoundSteady(q);
      AdvanceProgress(q);
      hide Advance, Popped;
      if Advance(q).Continue? {
        ParseSteady(Advance(q).p);
      }
    }
  }

  lemma RoundSteady(p: Parser)
    requires Valid(p) && Steady(p) && p.cur < |p.buf|
    ensures Steady(Advance(p).p)
  {
  }

  lemma {:induction false} DeliverSteady(p: Parser)
    requires Valid(p) && Steady(p)
    ensures Steady(Deliver(p).0)
    decreases Unread(p), Rank(p.status), |p.stack| + |p.completed|
  {
    hide Parse, Valid;
    ParseSteady(p);
    var (q, ok) := Parse(p);
    if ok && q.completed != [] {
      var next := q.(completed := q.completed[1..]);
      assert Valid(next) by { StillValid(q, q.completed[1..]); }
      DeliverSteady(next);
    }
  }

  lemma StillValid(p: Parser, completed: seq<RespType>)
    requires Valid(p)
    ensures Valid(p.(completed := completed))
  {
  }

  /** Fed in one piece, the parser delivers exactly what the reference reader reads. */
  lemma OneFeed(stream: Bytes)
    ensures var (p, out, ok) := Receive([stream]);
            var whole := Read(Fresh(stream));
            && out == whole.out
            && ok == !whole.failed
            && (ok ==> SameRest(p, whole.rest))
  {
    assert [stream][..0] == [];
    assert Concat([stream]) == stream by { assert [] + stream == stream; }
    AnyCutting([stream]);
    var consumed := ReceiveInStep([stream]);
    var p := Feed(NEW, stream);
    DeliverSteady(p);
    assert Receive([stream]).0 == Deliver(p).0;
  }
}
