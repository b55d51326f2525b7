/** When the incremental parser is late, exactly: it follows from the lengths of the pieces a bulk body arrives in. */
module RespLateness {
  import opened Base
  import opened Resp
  import opened RespReader
  import opened RespChunks

  // ----- One feed

  /** Where `read_bytes` leaves the cursor of an unfinished body of `n` bytes when the buffer has grown to `length`. */
  function NextCursor(n: nat, cur: nat, length: nat): nat {
    if cur < length && cur <= n + 2 then cur + Min(n + 2 - cur, length) else cur
  }

  /** The body stays unfinished: bytes are missing, or the cursor is already past all there is. */
  lemma BodyWaits(p: Parser, data: Bytes)
    requires Valid(p) && Quiet(p) && p.status.Bulk?
    requires var length := |p.buf| + |data|; length < p.status.n + 2 || length <= p.cur
    ensures var fed := Feed(p, data);
            Deliver(fed) == (fed.(cur := NextCursor(p.status.n, p.cur, |fed.buf|)), [], true)
  {
    var fed := Feed(p, data);
    var next := fed.(cur := NextCursor(p.status.n, p.cur, |fed.buf|));
    FeedValid(p, data);
    hide Parse, Deliver;
    if fed.cur < |fed.buf| {
      ParseGoesOn(fed, next);
      ParseWaits(next);
      hide Valid, Advance;
      SameDelivery(fed, next);
    } else {
      ParseWaits(fed);
    }
  }

  /** The body ends in the buffer: what is delivered is what a parser past it delivers. */
  lemma BodyEnds(p: Parser, data: Bytes) returns (q: Parser)
    requires Valid(p) && Quiet(p) && p.status.Bulk?
    requires var length := |p.buf| + |data|; p.status.n + 2 <= length && p.cur < length
    ensures Valid(q) && q.status.Type? && Valid(Feed(p, data)) && Deliver(Feed(p, data)) == Deliver(q)
  {
    var fed := Feed(p, data);
    FeedValid(p, data);
    q := Advance(fed).p;
    ParseGoesOn(fed, q);
    SameDelivery(fed, q);
  }

  lemma SameDelivery(p: Parser, q: Parser)
    requires Valid(p) && Valid(q) && Parse(p) == Parse(q)
    ensures Deliver(p) == Deliver(q)
  {
    hide Parse, Valid;
  }

  /** Before a feed this tells whether the parser will be late after it. */
  predicate WillBeLate(p: Parser, length: nat) {
    p.status.Bulk? && p.cur == p.status.n + 2 && |p.buf| + length == p.status.n + 2
  }

  /** The body the parser waits for before the feed, it still waits for after it. */
  predicate StaysInBody(p: Parser, length: nat) {
    p.status.Bulk? && (|p.buf| + length < p.status.n + 2 || |p.buf| + length <= p.cur)
  }

  /**
   * One feed makes the parser late exactly when its cursor has already run to the end of the body and the fed bytes
   * are just those the body lacks.
   */
  lemma FeedMakesLate(p: Parser, data: Bytes, consumed: Bytes, delivered: seq<RespType>)
    requires Reached(p, consumed, delivered) && Quiet(p)
    ensures Valid(Feed(p, data))
    ensures var (q, _, ok) := Deliver(Feed(p, data));
            && (Late(q) <==> WillBeLate(p, |data|))
            && (StaysInBody(p, |data|) ==>
                  q.status == p.status && |q.buf| == |p.buf| + |data| && q.cur == NextCursor(p.status.n, p.cur, |q.buf|))
            && (!StaysInBody(p, |data|) && q.status.Bulk? ==> q.cur == |q.buf| < q.status.n + 2)
            && (Late(q) ==> ok)
  {
    FeedValid(p, data);
    var fed := Feed(p, data);
    FeedReached(p, data, consumed, delivered);
    if StaysInBody(p, |data|) {
      BodyWaits(p, data);
    } else {
      var q := fed;
      if p.status.Bulk? {
        q := BodyEnds(p, data);
      }
      DeliverSteady(q);
      var consumed' := DeliverKeeps(fed, consumed, delivered);
      hide Deliver, Reached, PopCompleted, StatusFits;
    }
  }

  // ----- Any pieces

  /** What the reference reader waits for after these pieces, with the bytes of an unfinished token. */
  function Awaited(chunks: seq<Bytes>): Reader {
    Read(Fresh(Concat(chunks))).rest
  }

  /** Both wait for the same body, and all of `data` went into it. */
  predicate SameBody(before: Reader, now: Reader, data: Bytes) {
    before.status.Bulk? && now.status == before.status && |now.input| == |before.input| + |data|
  }

  /** The cursor in the body the pieces stop in, from the lengths of the pieces of this body alone. */
  function BodyCursor(chunks: seq<Bytes>): nat {
    if chunks == [] || !Awaited(chunks).status.Bulk? then 0
    else
      var earlier, data := chunks[..|chunks| - 1], chunks[|chunks| - 1];
      var now := Awaited(chunks);
      if SameBody(Awaited(earlier), now, data) then NextCursor(now.status.n, BodyCursor(earlier), |now.input|)
      else |now.input|
  }

  /**
   * The last piece with anything in it completes a bulk body to which an earlier piece has already taken the cursor's
   * end: no parser is asked.
   */
  predicate LateCut(chunks: seq<Bytes>) {
    chunks != [] &&
    var earlier, data := chunks[..|chunks| - 1], chunks[|chunks| - 1];
    var before := Awaited(earlier);
    || (data == [] && LateCut(earlier))
    || (before.status.Bulk? && |before.input| + |data| == before.status.n + 2 && BodyCursor(earlier) == before.status.n + 2)
  }

  /** The value a late parser has not yet filled in, filled in if the body ends as it should. */
  function LastStack(p: Parser): seq<RespType>
    requires Valid(p) && Late(p)
  {
    var n := p.status.n;
    if NewLineAt(p.buf, n) then WithTop(p.stack, SetValue(Top(p.stack), p.buf[..n]).value) else p.stack
  }

  /** `whole` goes on from `out` with what filling in the last body completes, and waits for a new type. */
  ghost predicate LacksLast(p: Parser, out: seq<RespType>, whole: Reading) {
    Valid(p) && Late(p) &&
    var (stack, last) := PopCompleted(LastStack(p), []);
    whole == Reading(out + last, Reader(Type, stack, []), false)
  }

  /** A late parser lacks the values that the last body completes; the reader of the whole waits for a new type. */
  lemma LateLacks(p: Parser, consumed: Bytes, out: seq<RespType>)
    requires Reached(p, consumed, out) && Quiet(p) && Late(p)
    ensures LacksLast(p, out, Read(Fresh(consumed + Unconsumed(p))))
  {
    var n := p.status.n;
    var r := Reader(p.status, p.stack, []);
    var body := Reader(p.status, p.stack, Unconsumed(p));
    assert Unconsumed(p) == p.buf;
    assert p.buf[n + 2..] == [];
    var next := Reader(Type, LastStack(p), []);
    assert Valid(p);
    assert ReadToken(body) == Whole(next);
    assert PopCompleted(body.stack, []) == (body.stack, []);
    ReachedReading(p, consumed, out);
    ReadNothing(next);
    assert Read(body) == Read(next) by { OneToken(body, next); }
    hide Read, ReadToken, PopCompleted, Reached, Quiet, LastStack;
    ReadOn(consumed, r, out, Unconsumed(p));
    assert More(r, Unconsumed(p)) == body;
  }

  lemma OneToken(r: Reader, next: Reader)
    requires StatusFits(r.status, r.stack) && PopCompleted(r.stack, []) == (r.stack, []) && ReadToken(r) == Whole(next)
    ensures StatusFits(next.status, next.stack) && Read(r) == Read(next)
  {
    assert [] + Read(next).out == Read(next).out;
  }

  /** What holds after every cutting: the parser is late exactly when the lengths say so, and else its cursor is known. */
  ghost predicate Foretold(chunks: seq<Bytes>) {
    var p := Receive(chunks).0;
    && (Late(p) <==> LateCut(chunks))
    && (p.status.Bulk? && !Late(p) ==> p.cur == BodyCursor(chunks))
  }

  lemma {:induction false} FailedIdles(r: Reader)
    requires StatusFits(r.status, r.stack) && Read(r).failed
    ensures Read(r).rest == IDLE
    decreases |r.input|
  {
    PopKeepsStatus(r);
    hide StatusFits, PopCompleted;
    var popped := r.(stack := PopCompleted(r.stack, []).0);
    if ReadToken(popped).Whole? {
      FailedIdles(ReadToken(popped).next);
    }
  }

  /** What the reader waits for, read off the parser. */
  lemma AwaitedIs(chunks: seq<Bytes>, consumed: Bytes)
    requires InStep(chunks, consumed)
    ensures var (p, _, ok) := Receive(chunks);
            if !ok || Late(p) then Awaited(chunks).status.Type?
            else Awaited(chunks).status == p.status && (p.status.Bulk? ==> Awaited(chunks).input == p.buf)
  {
    var (p, out, ok) := Receive(chunks);
    hide Read, Receive, Concat, Reached, Quiet;
    if !ok {
      FailedIdles(Fresh(Concat(chunks)));
    } else if Late(p) {
      LateLacks(p, consumed, out);
    } else {
      PunctualReading(p, consumed, out);
    }
  }

  lemma OneMorePiece(chunks: seq<Bytes>, consumed: Bytes, consumed': Bytes)
    requires chunks != [] && Receive(chunks[..|chunks| - 1]).2
    requires InStep(chunks[..|chunks| - 1], consumed) && InStep(chunks, consumed') && Foretold(chunks[..|chunks| - 1])
    ensures Foretold(chunks)
  {
    var earlier, data := chunks[..|chunks| - 1], chunks[|chunks| - 1];
    var (p, out, _) := Receive(earlier);
    AwaitedIs(earlier, consumed);
    AwaitedIs(chunks, consumed');
    FeedMakesLate(p, data, consumed, out);
    assert Quiet(p) && Reached(p, consumed, out);
    assert p.status.Bulk? ==> |p.buf| <= p.cur <= p.status.n + 2 by { assert Quiet(p) && Valid(p); }
    hide Read, Reached, Quiet, InStep, Deliver, Awaited, Valid, Concat;
    var q := Receive(chunks).0;
    assert q == Deliver(Feed(p, data)).0;
    assert Late(q) <==> LateCut(chunks);
  }

  /** However a stream is cut, the parser is late exactly when the lengths of the pieces say so. */
  lemma {:induction false} LateExactly(chunks: seq<Bytes>)
    ensures Foretold(chunks)
  {
    if chunks == [] {
      ReadNothing(Fresh([]));
    } else {
      var earlier := chunks[..|chunks| - 1];
      LateExactly(earlier);
      var consumed := ReceiveInStep(earlier);
      var consumed' := ReceiveInStep(chunks);
      if Receive(earlier).2 {
        OneMorePiece(chunks, consumed, consumed');
      } else {
        AwaitedIs(earlier, consumed);
        hide InStep, Awaited;
      }
    }
  }

  /**
   * Every cutting of every stream: the parser fails exactly when the stream is malformed; what it has delivered is what
   * the whole stream reads as, less what the last body completes exactly when the cut is late.
   */
  lemma CuttingDecides(chunks: seq<Bytes>)
    ensures var (p, out, ok) := Receive(chunks);
            var whole := Read(Fresh(Concat(chunks)));
            && ok == !whole.failed
            && (Late(p) <==> LateCut(chunks))
            && (!LateCut(chunks) ==> out == whole.out && (ok ==> SameRest(p, whole.rest)))
            && (LateCut(chunks) ==> ok && Late(p) && LacksLast(p, out, whole))
  {
    var (p, out, ok) := Receive(chunks);
    LateExactly(chunks);
    AnyCutting(chunks);
    var consumed := ReceiveInStep(chunks);
    hide Read, Receive, Concat, Reached, LateCut, BodyCursor, PopCompleted, LastStack;
    if ok && Late(p) {
      LateLacks(p, consumed, out);
    }
  }

  lemma {:induction false} PopConserves(stack: seq<RespType>)
    requires stack != []
    ensures var (left, out) := PopCompleted(stack, []); (left != [] || out != []) && |out| <= 1
    decreases |stack|
  {
    PopCompletedShrinks(stack, []);
    if IsCompleted(Top(stack)) && |stack| > 1 {
      var rest := stack[..|stack| - 1];
      PopConserves(WithTop(rest, AddItem(Top(rest), Top(stack))));
    }
  }

  /** A late parser at the end of a stream that leaves nothing unfinished lacks exactly the last value. */
  lemma LacksOne(p: Parser, out: seq<RespType>, whole: Reading)
    requires LacksLast(p, out, whole) && whole.rest.stack == []
    ensures whole.out != [] && out == whole.out[..|whole.out| - 1]
  {
    hide PopCompleted;
    PopConserves(LastStack(p));
    hide LastStack;
  }

  // ----- A body in three pieces

  /** The bytes so far end where a bulk body of `n` bytes begins. */
  predicate BodyBegins(prefix: Bytes, n: nat) {
    var reading := Read(Fresh(prefix));
    reading.rest.status == Bulk(n) && reading.rest.input == [] && !reading.failed
  }

  lemma BodyPart(prefix: Bytes, n: nat, part: Bytes)
    requires BodyBegins(prefix, n) && |part| < n + 2
    ensures Read(Fresh(prefix + part)).rest.status == Bulk(n) && Read(Fresh(prefix + part)).rest.input == part
  {
    var r := Read(Fresh(prefix)).rest;
    var whole := Reader(Bulk(n), r.stack, part);
    ReadFits(Fresh(prefix));
    ReadOn(prefix, r, Read(Fresh(prefix)).out, part);
    assert More(r, part) == whole by { assert [] + part == part; }
    PopKeepsStatus(whole);
    assert ReadToken(whole) == Partial(whole);
  }

  lemma {:induction false} ReadFits(r: Reader)
    requires StatusFits(r.status, r.stack)
    ensures StatusFits(Read(r).rest.status, Read(r).rest.stack)
    decreases |r.input|
  {
    PopKeepsStatus(r);
    hide PopCompleted;
    var popped := r.(stack := PopCompleted(r.stack, []).0);
    hide StatusFits;
    if ReadToken(popped).Whole? {
      ReadFits(ReadToken(popped).next);
    }
  }

  /** A body whose bytes come in three pieces is late exactly when twice the first and the second outrun it. */
  lemma ThreePieces(prefix: Bytes, n: nat, a: Bytes, b: Bytes, c: Bytes)
    requires BodyBegins(prefix, n) && |a| + |b| + |c| == n + 2 && a != [] && b != [] && c != []
    ensures LateCut([prefix + a, b, c]) <==> 2 * |a| + |b| >= n + 2
  {
    BodyPart(prefix, n, a);
    BodyPart(prefix, n, a + b);
    ReadNothing(Fresh([]));
    var one, two := [prefix + a], [prefix + a, b];
    assert one[..0] == [] && two[..1] == one && [prefix + a, b, c][..2] == two;
    assert Concat([]) == [];
    assert Concat(one) == prefix + a by { assert [] + (prefix + a) == prefix + a; }
    assert Concat(two) == prefix + (a + b) by { Regroup(prefix, a, b); }
    hide Read, Concat, BodyBegins;
    assert BodyCursor(one) == |a|;
    assert BodyCursor(two) == NextCursor(n, |a|, |a| + |b|);
  }
}
