/**
 * A reference reader of RESP bytes that has no buffer and no cursors, and what the incremental parser owes it:
 * every way of cutting a stream into pieces delivers what the reader reads, at most one byte late.
 */
module RespReader {
  import opened Base
  import opened Decimal
  import opened Resp

  /** What is being read, the values it goes into, and the bytes from where the current token starts. */
  datatype Reader = Reader(status: Status, stack: seq<RespType>, input: Bytes)

  datatype Reading = Reading(out: seq<RespType>, rest: Reader, failed: bool)

  const IDLE: Reader := Reader(Type, [], [])

  datatype Token = Whole(next: Reader) | Partial(rest: Reader) | Malformed

  /** Reads one token if `input` holds all of it. */
  function ReadToken(r: Reader): (token: Token)
    requires StatusFits(r.status, r.stack)
    ensures token.Whole? ==> StatusFits(token.next.status, token.next.stack) && |token.next.input| < |r.input|
    ensures token.Partial? ==> StatusFits(token.rest.status, token.rest.stack)
  {
    match r.status
    case Type =>
      var i := FindPrefix(r.input, 0);
      if i == |r.input| then Partial(r.(input := []))
      else
        var v := MatchPrefix(r.input[i]).value;
        Whole(Reader(StatusAfterPrefix(v), r.stack + [v], r.input[i + 1..]))
    case Header =>
      (match FindNewLine(r.input, 0)
       case None => Partial(r)
       case Some(i) =>
         match ParseUsize(r.input[..i])
         case None => Malformed
         case Some(n) =>
           Whole(Reader(if Top(r.stack).BulkStr? then Bulk(n) else Type,
                        WithTop(r.stack, SetLength(Top(r.stack), n)), r.input[i + 2..])))
    case Line =>
      (match FindNewLine(r.input, 0)
       case None => Partial(r)
       case Some(i) =>
         match SetValue(Top(r.stack), r.input[..i])
         case None => Malformed
         case Some(v) => Whole(Reader(Type, WithTop(r.stack, v), r.input[i + 2..])))
    case Bulk(n) =>
      if |r.input| < n + 2 then Partial(r)
      else if NewLineAt(r.input, n) then
        Whole(Reader(Type, WithTop(r.stack, SetValue(Top(r.stack), r.input[..n]).value), r.input[n + 2..]))
      else Whole(Reader(Type, r.stack, r.input[n + 2..]))
  }

  /** Reads `input` to its end: the values completed on the way and what is left unfinished, unless a token is malformed. */
  function Read(r: Reader): Reading
    requires StatusFits(r.status, r.stack)
    decreases |r.input|
  {
    PopKeepsStatus(r);
    var (stack, out) := PopCompleted(r.stack, []);
    match ReadToken(r.(stack := stack))
    case Partial(rest) => Reading(out, rest, false)
    case Malformed => Reading(out, IDLE, true)
    case Whole(next) =>
      var later := Read(next);
      Reading(out + later.out, later.rest, later.failed)
  }

  lemma PopKeepsStatus(r: Reader)
    requires StatusFits(r.status, r.stack)
    ensures StatusFits(r.status, PopCompleted(r.stack, []).0)
    ensures !r.status.Type? ==> PopCompleted(r.stack, []) == (r.stack, [])
  {
  }

  lemma {:induction false} PopAppends(stack: seq<RespType>, completed: seq<RespType>)
    ensures PopCompleted(stack, completed).0 == PopCompleted(stack, []).0
    ensures PopCompleted(stack, completed).1 == completed + PopCompleted(stack, []).1
    ensures PopCompleted(PopCompleted(stack, []).0, []) == (PopCompleted(stack, []).0, [])
    decreases |stack|
  {
    if stack != [] && IsCompleted(Top(stack)) && |stack| > 1 {
      var rest := stack[..|stack| - 1];
      PopAppends(WithTop(rest, AddItem(Top(rest), Top(stack))), completed);
    }
  }

  function Then(first: Reading, second: Reading): Reading {
    Reading(first.out + second.out, second.rest, second.failed)
  }

  /** Reading pops what is completed, then goes on from the settled stack. */
  lemma PopFirst(r: Reader)
    requires StatusFits(r.status, r.stack)
    ensures var (stack, out) := PopCompleted(r.stack, []);
            StatusFits(r.status, stack) && Read(r) == Then(Reading(out, IDLE, false), Read(r.(stack := stack)))
  {
    hide ReadToken, StatusFits;
    PopKeepsStatus(r);
    PopAppends(r.stack, []);
    var (stack, out) := PopCompleted(r.stack, []);
    assert out + [] == out;
    match ReadToken(r.(stack := stack))
    case Partial(_) =>
    case Malformed =>
    case Whole(next) => assert [] + Read(next).out == Read(next).out;
  }

  // ----- Reading in two parts

  lemma {:induction false} FindPrefixExtended(a: Bytes, b: Bytes, from: nat)
    requires from <= |a|
    ensures FindPrefix(a + b, from) == if FindPrefix(a, from) < |a| then FindPrefix(a, from) else |a| + FindPrefix(b, 0)
    decreases |a| - from
  {
    if from == |a| {
      FindPrefixShift(a, b, 0);
    } else if MatchPrefix(a[from]).None? {
      FindPrefixExtended(a, b, from + 1);
    }
  }

  lemma {:induction false} FindPrefixShift(a: Bytes, b: Bytes, from: nat)
    requires from <= |b|
    ensures FindPrefix(a + b, |a| + from) == |a| + FindPrefix(b, from)
    decreases |b| - from
  {
    if from < |b| && MatchPrefix(b[from]).None? {
      FindPrefixShift(a, b, from + 1);
    }
  }

  /** `FindPrefix` finds the first prefix. */
  lemma {:induction false} FindPrefixIs(s: Bytes, from: nat, i: nat)
    requires from <= i <= |s|
    requires i < |s| ==> MatchPrefix(s[i]).Some?
    ensures FindPrefix(s, from) == i <==> forall j :: from <= j < i ==> MatchPrefix(s[j]).None?
    decreases |s| - from
  {
    if from < i && MatchPrefix(s[from]).None? {
      FindPrefixIs(s, from + 1, i);
    }
  }

  lemma NewLineExtended(a: Bytes, b: Bytes, i: nat)
    requires NewLineAt(a, i)
    ensures NewLineAt(a + b, i)
  {
  }

  lemma FindNewLineExtended(a: Bytes, b: Bytes)
    requires FindNewLine(a, 0).Some?
    ensures FindNewLine(a + b, 0) == FindNewLine(a, 0)
  {
    var i := FindNewLine(a, 0).value;
    NewLineExtended(a, b, i);
    forall j | 0 <= j < i
      ensures !NewLineAt(a + b, j)
    {
      assert !NewLineAt(a, j);
    }
  }

  function More(r: Reader, more: Bytes): Reader {
    r.(input := r.input + more)
  }

  /** A token that is whole, or malformed, stays so when more bytes follow; a partial one resumes. */
  ghost predicate Extends(token: Token, longer: Token, r: Reader, more: Bytes)
    requires StatusFits(r.status, r.stack)
  {
    match token
    case Whole(next) => longer == Whole(More(next, more))
    case Malformed => longer == Malformed
    case Partial(rest) =>
      && rest.status == r.status
      && rest.stack == r.stack
      && ReadToken(rest) == Partial(rest)
      && longer == ReadToken(More(rest, more))
  }

  lemma TokenExtended(r: Reader, more: Bytes)
    requires StatusFits(r.status, r.stack)
    ensures Extends(ReadToken(r), ReadToken(More(r, more)), r, more)
  {
    match r.status
    case Type => TypeExtended(r, more);
    case Header => LineExtended(r, more);
    case Line => LineExtended(r, more);
    case Bulk(n) =>
      if n + 2 <= |r.input| {
        assert (r.input + more)[n + 2..] == r.input[n + 2..] + more;
        assert (r.input + more)[..n] == r.input[..n];
      }
  }

  /** The token a reader that waits for a type finds. */
  lemma TypeTokenIs(stack: seq<RespType>, s: Bytes)
    ensures StatusFits(Type, stack)
    ensures var i := FindPrefix(s, 0);
            if i == |s| then ReadToken(Reader(Type, stack, s)) == Partial(Reader(Type, stack, []))
            else var v := MatchPrefix(s[i]).value;
                 ReadToken(Reader(Type, stack, s)) == Whole(Reader(StatusAfterPrefix(v), stack + [v], s[i + 1..]))
  {
  }

  lemma TypeExtended(r: Reader, more: Bytes)
    requires r.status.Type?
    ensures Extends(ReadToken(r), ReadToken(More(r, more)), r, more)
  {
    var s := r.input;
    assert r == Reader(Type, r.stack, s);
    TypeTokenIs(r.stack, s);
    TypeTokenIs(r.stack, []);
    if FindPrefix(s, 0) < |s| {
      PrefixFirst(r.stack, s, more);
    } else {
      PrefixLater(r.stack, s, more);
      assert FindPrefix([], 0) == 0;
      assert [] + more == more;
    }
    hide MatchPrefix, StatusAfterPrefix, ReadToken, FindPrefix, StatusFits;
  }

  lemma PrefixFirst(stack: seq<RespType>, s: Bytes, more: Bytes)
    requires FindPrefix(s, 0) < |s|
    ensures StatusFits(Type, stack) && ReadToken(Reader(Type, stack, s)).Whole?
    ensures ReadToken(Reader(Type, stack, s + more)) == Whole(More(ReadToken(Reader(Type, stack, s)).next, more))
  {
    FindPrefixExtended(s, more, 0);
    TypeTokenIs(stack, s);
    TypeTokenIs(stack, s + more);
    hide MatchPrefix, StatusAfterPrefix, ReadToken, StatusFits;
    DropPart(s, more, FindPrefix(s, 0) + 1);
    hide FindPrefix;
  }

  lemma PrefixLater(stack: seq<RespType>, s: Bytes, more: Bytes)
    requires FindPrefix(s, 0) == |s|
    ensures StatusFits(Type, stack)
    ensures ReadToken(Reader(Type, stack, s + more)) == ReadToken(Reader(Type, stack, more))
  {
    hide *;
    FindPrefixExtended(s, more, 0);
    var whole, j := s + more, FindPrefix(more, 0);
    if j < |more| {
      DropPast(s, more, j + 1);
      FoundPrefix(s, more, j);
      SameToken(stack, whole, more);
    } else {
      NoToken(stack, whole, more);
    }
  }

  lemma SameToken(stack: seq<RespType>, a: Bytes, b: Bytes)
    requires FindPrefix(a, 0) < |a| && FindPrefix(b, 0) < |b|
    requires a[FindPrefix(a, 0)] == b[FindPrefix(b, 0)] && a[FindPrefix(a, 0) + 1..] == b[FindPrefix(b, 0) + 1..]
    ensures StatusFits(Type, stack) && ReadToken(Reader(Type, stack, a)) == ReadToken(Reader(Type, stack, b))
  {
    hide FindPrefix;
  }

  lemma NoToken(stack: seq<RespType>, a: Bytes, b: Bytes)
    requires FindPrefix(a, 0) == |a| && FindPrefix(b, 0) == |b|
    ensures StatusFits(Type, stack) && ReadToken(Reader(Type, stack, a)) == ReadToken(Reader(Type, stack, b))
  {
    hide FindPrefix;
  }

  lemma FoundPrefix(a: Bytes, b: Bytes, j: nat)
    requires j < |b|
    ensures (a + b)[|a| + j] == b[j]
  {
  }

  lemma LineExtended(r: Reader, more: Bytes)
    requires StatusFits(r.status, r.stack) && (r.status.Header? || r.status.Line?)
    ensures Extends(ReadToken(r), ReadToken(More(r, more)), r, more)
  {
    if FindNewLine(r.input, 0).Some? {
      var i := FindNewLine(r.input, 0).value;
      FindNewLineExtended(r.input, more);
      assert (r.input + more)[..i] == r.input[..i];
      assert (r.input + more)[i + 2..] == r.input[i + 2..] + more;
    }
  }

  /** Reading a stream is reading a part of it and then the remainder; a failure is final. */
  lemma {:induction false} ReadInTwoParts(r: Reader, more: Bytes)
    requires StatusFits(r.status, r.stack)
    ensures var first, whole := Read(r), Read(More(r, more));
            if first.failed then whole.failed && whole.out == first.out
            else StatusFits(first.rest.status, first.rest.stack) && whole == Then(first, Read(More(first.rest, more)))
    decreases |r.input|
  {
    hide ReadToken, StatusFits;
    PopKeepsStatus(r);
    PopAppends(r.stack, []);
    var (stack, out) := PopCompleted(r.stack, []);
    var popped := r.(stack := stack);
    TokenExtended(popped, more);
    match ReadToken(popped)
    case Malformed =>
    case Partial(rest) =>
      var resumed := More(rest, more);
      assert resumed.(stack := stack) == resumed;
      assert More(r, more).(stack := stack) == More(popped, more);
      assert out + [] == out;
      if ReadToken(resumed).Whole? {
        var later := Read(ReadToken(resumed).next);
        assert [] + later.out == later.out;
      }
    case Whole(next) =>
      assert forall s, t: seq<RespType> :: out + (s + t) == out + s + t;
      ReadInTwoParts(next, more);
  }
}
