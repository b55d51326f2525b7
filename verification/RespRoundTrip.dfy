/** What is printed is read back, what is read was printable, and the values for which that fails. */
module RespRoundTrip {
  import opened Base
  import opened Decimal
  import opened Resp
  import opened RespReader
  import opened RespChunks
  import opened RespLateness

  /** Simple strings without CR LF, bulk strings and non-empty arrays whose stated length is right. */
  ghost predicate WellFormed(v: RespType) {
    match v
    case SimpleStr(Some(s)) => forall j: nat :: !NewLineAt(s, j)
    case BulkStr(n, Some(s)) => n == |s| && n < TWO_64
    case Array(n, items) => 0 < n == |items| && n < TWO_64 && forall i :: 0 <= i < |items| ==> WellFormed(items[i])
    case _ => false
  }

  ghost predicate AllWellFormed(vs: seq<RespType>) {
    forall i :: 0 <= i < |vs| ==> WellFormed(vs[i])
  }

  lemma {:induction v} WellFormedPrintable(v: RespType)
    requires WellFormed(v)
    ensures Printable(v) && IsCompleted(v)
  {
  }

  lemma AllPrintable(vs: seq<RespType>)
    requires AllWellFormed(vs)
    ensures forall i :: 0 <= i < |vs| ==> Printable(vs[i])
  {
    forall i | 0 <= i < |vs|
      ensures Printable(vs[i])
    {
      WellFormedPrintable(vs[i]);
    }
  }

  function PrintAll(vs: seq<RespType>): Bytes
    requires AllWellFormed(vs)
  {
    AllPrintable(vs);
    SerializeAll(vs)
  }

  // ----- One token of the printed form at a time

  /** A value on top that nothing completes yet. */
  predicate Settled(stack: seq<RespType>) {
    stack == [] || !IsCompleted(Top(stack))
  }

  /** Reading goes on from a settled stack with the next token. */
  lemma Steps(r: Reader, next: Reader)
    requires StatusFits(r.status, r.stack) && Settled(r.stack) && ReadToken(r) == Whole(next)
    ensures Read(r) == Read(next)
  {
    assert r.(stack := r.stack) == r;
    assert [] + Read(next).out == Read(next).out;
  }

  lemma TypeToken(stack: seq<RespType>, prefix: Byte, rest: Bytes)
    requires Settled(stack) && MatchPrefix(prefix).Some?
    ensures var v := MatchPrefix(prefix).value;
            && StatusFits(StatusAfterPrefix(v), stack + [v])
            && Read(Reader(Type, stack, [prefix] + rest)) == Read(Reader(StatusAfterPrefix(v), stack + [v], rest))
  {
    var r := Reader(Type, stack, [prefix] + rest);
    assert FindPrefix(r.input, 0) == 0;
    assert r.input[1..] == rest;
    var v := MatchPrefix(prefix).value;
    Steps(r, Reader(StatusAfterPrefix(v), stack + [v], rest));
  }

  lemma FirstLine(line: Bytes, rest: Bytes)
    requires forall j: nat :: !NewLineAt(line, j)
    ensures var input := line + DELIMITER + rest;
            FindNewLine(input, 0) == Some(|line|) && input[..|line|] == line && input[|line| + 2..] == rest
  {
    var input := line + DELIMITER + rest;
    assert input[|line|] == CR && input[|line| + 1] == LF;
    forall j: nat | j < |line|
      ensures !NewLineAt(input, j)
    {
      assert !NewLineAt(line, j);
    }
    NewLineFound(input, |line|);
  }

  lemma DigitsHaveNoNewLine(s: Bytes)
    requires IsDigits(s)
    ensures forall j: nat :: !NewLineAt(s, j)
  {
    assert DigitOf(CR) == None;
  }

  lemma HeaderToken(stack: seq<RespType>, n: nat, rest: Bytes)
    requires StatusFits(Header, stack) && n < TWO_64
    ensures var top := Top(stack); var status := if top.BulkStr? then Bulk(n) else Type;
            var stack' := WithTop(stack, SetLength(top, n));
            && StatusFits(status, stack')
            && Read(Reader(Header, stack, Print(n) + DELIMITER + rest)) == Read(Reader(status, stack', rest))
  {
    PrintDigits(n);
    DigitsHaveNoNewLine(Print(n));
    FirstLine(Print(n), rest);
    ParsePrint(n);
    var top := Top(stack);
    Steps(Reader(Header, stack, Print(n) + DELIMITER + rest),
          Reader(if top.BulkStr? then Bulk(n) else Type, WithTop(stack, SetLength(top, n)), rest));
  }

  // ----- Whole values

  /** Reading a printed value puts it on the stack. */
  lemma {:induction false} ValueRead(v: RespType, stack: seq<RespType>, rest: Bytes)
    requires WellFormed(v) && Printable(v) && Settled(stack)
    ensures Read(Reader(Type, stack, Serialize(v) + rest)) == Read(Reader(Type, stack + [v], rest))
    decreases v, 0
  {
    match v
    case SimpleStr(Some(s)) => SimpleRead(s, stack, rest);
    case BulkStr(_, Some(s)) => BulkRead(s, stack, rest);
    case Array(n, items) => ArrayRead(v, n, items, stack, rest);
  }

  lemma SimpleRead(s: Bytes, stack: seq<RespType>, rest: Bytes)
    requires WellFormed(SimpleStr(Some(s))) && Settled(stack)
    ensures Read(Reader(Type, stack, Serialize(SimpleStr(Some(s))) + rest)) == Read(Reader(Type, stack + [SimpleStr(Some(s))], rest))
  {
    var line := s + DELIMITER + rest;
    assert Serialize(SimpleStr(Some(s))) + rest == [PLUS] + line;
    TypeToken(stack, PLUS, line);
    FirstLine(s, rest);
    var open := stack + [SimpleStr(None)];
    assert WithTop(open, SimpleStr(Some(s))) == stack + [SimpleStr(Some(s))];
    Steps(Reader(Line, open, line), Reader(Type, stack + [SimpleStr(Some(s))], rest));
  }

  lemma BulkRead(s: Bytes, stack: seq<RespType>, rest: Bytes)
    requires |s| < TWO_64 && Settled(stack)
    ensures Read(Reader(Type, stack, Serialize(BulkStr(|s|, Some(s))) + rest)) == Read(Reader(Type, stack + [BulkStr(|s|, Some(s))], rest))
  {
    hide Read, ReadToken, PopCompleted, NewLineAt;
    var n := |s|;
    var body := s + DELIMITER + rest;
    var header := Print(n) + DELIMITER + body;
    assert Serialize(BulkStr(n, Some(s))) + rest == [DOLLAR] + header;
    TypeToken(stack, DOLLAR, header);
    var open := stack + [BulkStr(0, None)];
    HeaderToken(open, n, body);
    var sized := stack + [BulkStr(n, None)];
    assert WithTop(open, BulkStr(n, None)) == sized;
    BodyToken(s, stack, rest);
  }

  lemma BodyToken(s: Bytes, stack: seq<RespType>, rest: Bytes)
    ensures StatusFits(Bulk(|s|), stack + [BulkStr(|s|, None)])
    ensures Read(Reader(Bulk(|s|), stack + [BulkStr(|s|, None)], s + DELIMITER + rest))
         == Read(Reader(Type, stack + [BulkStr(|s|, Some(s))], rest))
  {
    var n, body := |s|, s + DELIMITER + rest;
    var sized, full := stack + [BulkStr(n, None)], stack + [BulkStr(n, Some(s))];
    assert NewLineAt(body, n) && body[..n] == s && body[n + 2..] == rest;
    assert WithTop(sized, BulkStr(n, Some(s))) == full;
    hide Read, PopCompleted, NewLineAt;
    Steps(Reader(Bulk(n), sized, body), Reader(Type, full, rest));
  }

  lemma {:induction false} ArrayRead(v: RespType, n: nat, items: seq<RespType>, stack: seq<RespType>, rest: Bytes)
    requires v == Array(n, items) && WellFormed(v) && Printable(v) && Settled(stack)
    ensures Read(Reader(Type, stack, Serialize(v) + rest)) == Read(Reader(Type, stack + [v], rest))
    decreases items, 1
  {
    ArrayOpened(n, items, stack, rest);
    hide Read, ReadToken, PopCompleted, Serialize, SerializeAll;
    assert items[0..] == items && items[..n] == items;
    ItemsRead(n, items, 0, stack, rest);
  }

  /** The header of an array puts it on the stack, empty. */
  lemma ArrayOpened(n: nat, items: seq<RespType>, stack: seq<RespType>, rest: Bytes)
    requires Printable(Array(n, items)) && n < TWO_64 && Settled(stack)
    ensures Read(Reader(Type, stack, Serialize(Array(n, items)) + rest))
         == Read(Reader(Type, stack + [NoArray(n)], SerializeAll(items) + rest))
  {
    ArrayPrinted(n, items, rest);
    hide Read, ReadToken, PopCompleted, Serialize, SerializeAll, Print, Printable;
    var body := SerializeAll(items) + rest;
    TypeToken(stack, STAR, Print(n) + DELIMITER + body);
    var open := stack + [NoArray(0)];
    HeaderToken(open, n, body);
    assert WithTop(open, NoArray(n)) == stack + [NoArray(n)];
  }

  lemma ArrayPrinted(n: nat, items: seq<RespType>, rest: Bytes)
    requires Printable(Array(n, items))
    ensures Serialize(Array(n, items)) + rest == [STAR] + (Print(n) + DELIMITER + (SerializeAll(items) + rest))
  {
    var all := SerializeAll(items);
    assert Serialize(Array(n, items)) == [STAR] + Print(n) + DELIMITER + all;
    hide Serialize, SerializeAll, Print;
    Chained([STAR], Print(n), DELIMITER, all, rest);
  }

  lemma Chained(a: Bytes, b: Bytes, c: Bytes, d: Bytes, e: Bytes)
    ensures a + b + c + d + e == a + (b + c + (d + e))
  {
  }

  /** An array of which `k` items are in. */
  function Filled(n: nat, items: seq<RespType>, k: nat): RespType
    requires k <= |items|
  {
    if k == 0 then NoArray(n) else Array(n, items[..k])
  }

  lemma {:induction false} ItemsRead(n: nat, items: seq<RespType>, k: nat, stack: seq<RespType>, rest: Bytes)
    requires k <= |items| <= n && 0 < n && AllWellFormed(items) && forall i :: 0 <= i < |items| ==> Printable(items[i])
    ensures Read(Reader(Type, stack + [Filled(n, items, k)], SerializeAll(items[k..]) + rest))
         == Read(Reader(Type, stack + [Filled(n, items, |items|)], rest))
    decreases items, 0, |items| - k
  {
    hide Read, ReadToken, PopCompleted, Serialize;
    if k == |items| {
      assert SerializeAll(items[k..]) + rest == rest;
    } else {
      var later := SerializeAll(items[k + 1..]) + rest;
      assert items[k..][1..] == items[k + 1..];
      assert SerializeAll(items[k..]) + rest == Serialize(items[k]) + later;
      var open := stack + [Filled(n, items, k)];
      ValueRead(items[k], open, later);
      WellFormedPrintable(items[k]);
      ItemAdded(open, items[k], later);
      assert items[..k] + [items[k]] == items[..k + 1];
      assert [items[0]] == items[..1];
      assert AddItem(Filled(n, items, k), items[k]) == Filled(n, items, k + 1);
      assert WithTop(open, AddItem(Top(open), items[k])) == stack + [Filled(n, items, k + 1)];
      ItemsRead(n, items, k + 1, stack, rest);
    }
  }

  /** A completed value moves into the value below it. */
  lemma ItemAdded(stack: seq<RespType>, v: RespType, input: Bytes)
    requires stack != [] && IsCompleted(v)
    ensures Read(Reader(Type, stack + [v], input)) == Read(Reader(Type, WithTop(stack, AddItem(Top(stack), v)), input))
  {
    assert (stack + [v])[..|stack|] == stack;
    assert Top(stack + [v]) == v;
    var merged := WithTop(stack, AddItem(Top(stack), v));
    assert PopCompleted(stack + [v], []) == PopCompleted(merged, []);
    var settled := PopCompleted(merged, []).0;
    assert Reader(Type, stack + [v], input).(stack := settled) == Reader(Type, merged, input).(stack := settled);
  }

  /** A value completed at the bottom is handed out. */
  lemma HandedOut(v: RespType, input: Bytes)
    requires IsCompleted(v)
    ensures Read(Reader(Type, [v], input)) == Then(Reading([v], IDLE, false), Read(Reader(Type, [], input)))
  {
    assert PopCompleted([v], []) == ([], [v]) by {
      assert [v][..0] == [];
      assert [] + [v] == [v];
    }
    PopFirst(Reader(Type, [v], input));
    assert Reader(Type, [v], input).(stack := []) == Reader(Type, [], input);
  }

  /** Printing any sequence of well-formed values and reading the bytes gives the sequence back and leaves nothing over. */
  lemma {:induction false} PrintedRead(vs: seq<RespType>)
    requires AllWellFormed(vs)
    ensures Read(Fresh(PrintAll(vs))) == Reading(vs, IDLE, false)
  {
    if vs == [] {
      AllPrintable(vs);
      ReadNothing(IDLE);
    } else {
      var rest := PrintAll(vs[1..]);
      FirstPrinted(vs);
      WellFormedPrintable(vs[0]);
      hide Read, PrintAll, WellFormed, Serialize, Printable;
      ValueRead(vs[0], [], rest);
      assert [] + [vs[0]] == [vs[0]];
      HandedOut(vs[0], rest);
      PrintedRead(vs[1..]);
      assert [vs[0]] + vs[1..] == vs;
    }
  }

  lemma FirstPrinted(vs: seq<RespType>)
    requires AllWellFormed(vs) && vs != []
    ensures Printable(vs[0]) && PrintAll(vs) == Serialize(vs[0]) + PrintAll(vs[1..])
  {
    AllPrintable(vs);
    AllPrintable(vs[1..]);
    hide Serialize;
  }

  /** The round trip of printer and incremental parser, in one feed: same values, empty stack, no byte unread. */
  lemma RoundTrip(vs: seq<RespType>)
    requires AllWellFormed(vs)
    ensures var (p, out, ok) := Receive([PrintAll(vs)]);
            ok && out == vs && p.stack == [] && p.status == Type && p.cur == |p.buf|
  {
    PrintedRead(vs);
    OneFeed(PrintAll(vs));
  }

  // ----- Frames arriving in pieces

  lemma {:induction false} PrintAllSplit(vs: seq<RespType>, k: nat)
    requires AllWellFormed(vs) && k <= |vs|
    ensures PrintAll(vs) == PrintAll(vs[..k]) + PrintAll(vs[k..])
  {
    AllPrintable(vs);
    AllPrintable(vs[..k]);
    if k > 0 {
      assert vs[1..][..k - 1] == vs[..k][1..] && vs[1..][k - 1..] == vs[k..];
      PrintAllSplit(vs[1..], k - 1);
      AllPrintable(vs[1..]);
      AllPrintable(vs[..k][1..]);
    } else {
      assert vs[0..] == vs && vs[..0] == [];
    }
  }

  lemma PrefixReads(part: Bytes, whole: Bytes)
    requires part <= whole && !Read(Fresh(whole)).failed
    ensures !Read(Fresh(part)).failed && Read(Fresh(part)).out <= Read(Fresh(whole)).out
  {
    var more := whole[|part|..];
    assert part + more == whole;
    ReadInTwoParts(Fresh(part), more);
    assert More(Fresh(part), more) == Fresh(whole);
  }

  /**
   * Frames arriving in any pieces: the parser never fails and never delivers anything but the first frames,
   * and it has delivered `k` of them once one byte more than their bytes is in (or all their bytes, if the cut is not late).
   */
  lemma FramesDelivered(vs: seq<RespType>, chunks: seq<Bytes>, k: nat)
    requires AllWellFormed(vs) && Concat(chunks) <= PrintAll(vs) && k <= |vs|
    ensures var (p, out, ok) := Receive(chunks);
            && ok
            && out <= vs
            && (|PrintAll(vs[..k])| < |Concat(chunks)| ==> vs[..k] <= out)
            && (|PrintAll(vs[..k])| <= |Concat(chunks)| && !LateCut(chunks) ==> vs[..k] <= out)
  {
    var stream := Concat(chunks);
    AnyCutting(chunks);
    CuttingDecides(chunks);
    hide *;
    FirstFrames(vs, stream, k);
    if stream != [] {
      FirstFrames(vs, stream[..|stream| - 1], k);
    }
  }

  /** The beginning of a stream of frames reads as the frames that are whole in it. */
  lemma FirstFrames(vs: seq<RespType>, stream: Bytes, k: nat)
    requires AllWellFormed(vs) && stream <= PrintAll(vs) && k <= |vs|
    ensures StatusFits(Fresh(stream).status, Fresh(stream).stack)
    ensures AllWellFormed(vs[..k])
    ensures !Read(Fresh(stream)).failed && Read(Fresh(stream)).out <= vs
    ensures |PrintAll(vs[..k])| <= |stream| ==> vs[..k] <= Read(Fresh(stream)).out
  {
    PrintedRead(vs);
    PrintedRead(vs[..k]);
    PrintAllSplit(vs, k);
    hide Read, PrintAll;
    PrefixReads(stream, PrintAll(vs));
    if |PrintAll(vs[..k])| <= |stream| {
      PrefixReads(PrintAll(vs[..k]), stream);
    }
  }

  // ----- Whatever is delivered was well formed

  /** A value on the stack: not filled in yet, or well formed as far as it goes. */
  ghost predicate Unfinished(v: RespType) {
    match v
    case SimpleStr(o) => o == None || WellFormed(v)
    case Error(o) => o == None
    case Integer(o) => o == None
    case BulkStr(n, o) => n < TWO_64 && (o == None || WellFormed(v))
    case NoArray(n) => n < TWO_64
    case Array(n, items) => n < TWO_64 && items != [] && AllWellFormed(items)
    case Unhandled(_) => true
  }

  ghost predicate AllUnfinished(stack: seq<RespType>) {
    forall i :: 0 <= i < |stack| ==> Unfinished(stack[i])
  }

  lemma {:induction false} PopUnfinished(stack: seq<RespType>)
    requires AllUnfinished(stack)
    ensures AllUnfinished(PopCompleted(stack, []).0) && AllWellFormed(PopCompleted(stack, []).1)
    decreases |stack|
  {
    if stack != [] && IsCompleted(Top(stack)) {
      assert WellFormed(Top(stack));
      if |stack| > 1 {
        var rest := stack[..|stack| - 1];
        PopUnfinished(WithTop(rest, AddItem(Top(rest), Top(stack))));
      }
    }
  }

  lemma LineUnfinished(input: Bytes)
    requires FindNewLine(input, 0).Some?
    ensures WellFormed(SimpleStr(Some(input[..FindNewLine(input, 0).value])))
  {
    var i := FindNewLine(input, 0).value;
    forall j: nat
      ensures !NewLineAt(input[..i], j)
    {
      if j < i {
        assert !NewLineAt(input, j);
      }
    }
  }

  lemma TokenUnfinished(r: Reader)
    requires StatusFits(r.status, r.stack) && AllUnfinished(r.stack)
    ensures ReadToken(r).Whole? ==> AllUnfinished(ReadToken(r).next.stack)
  {
    if r.status.Line? && FindNewLine(r.input, 0).Some? {
      LineUnfinished(r.input);
    }
    if r.status.Bulk? && |r.input| >= r.status.n + 2 {
      assert |r.input[..r.status.n]| == r.status.n;
    }
  }

  lemma {:induction false} ReadWellFormed(r: Reader)
    requires StatusFits(r.status, r.stack) && AllUnfinished(r.stack)
    ensures AllWellFormed(Read(r).out)
    decreases |r.input|
  {
    hide ReadToken, StatusFits, WellFormed, Unfinished;
    PopKeepsStatus(r);
    PopUnfinished(r.stack);
    var popped := r.(stack := PopCompleted(r.stack, []).0);
    TokenUnfinished(popped);
    if ReadToken(popped).Whole? {
      ReadWellFormed(ReadToken(popped).next);
    }
  }

  /** Every value ever delivered, from any bytes in any pieces, is well formed, so printing it gives a frame that reads back as it. */
  lemma DeliveredReprints(chunks: seq<Bytes>)
    ensures var out := Receive(chunks).1;
            AllWellFormed(out) && Receive([PrintAll(out)]).1 == out
  {
    AnyCutting(chunks);
    ReadWellFormed(Fresh(Concat(chunks)));
    RoundTrip(Receive(chunks).1);
  }

  /** Printing a value and feeding the bytes gives it back exactly when it is well formed. */
  lemma ComesBack(v: RespType)
    requires Printable(v)
    ensures Receive([Serialize(v)]).1 == [v] <==> WellFormed(v)
  {
    if WellFormed(v) {
      PrintOne(v);
      RoundTrip([v]);
    }
    DeliveredReprints([Serialize(v)]);
    hide Receive, Serialize, WellFormed;
    assert Receive([Serialize(v)]).1 == [v] ==> WellFormed([v][0]);
  }

  // ----- Values that do not come back

  ghost predicate Stuck(stack: seq<RespType>) {
    exists i :: 0 <= i < |stack| && NeverCompletes(stack[i])
  }

  /** An array of stated length 0 as parsing builds it. */
  predicate NeverCompletes(v: RespType) {
    v == NoArray(0) || (v.Array? && v.length == 0 && v.items != [])
  }

  lemma {:induction false} PopStuck(stack: seq<RespType>)
    requires Stuck(stack)
    ensures Stuck(PopCompleted(stack, []).0) && PopCompleted(stack, []).1 == []
    decreases |stack|
  {
    if IsCompleted(Top(stack)) {
      var i :| 0 <= i < |stack| && NeverCompletes(stack[i]);
      var rest := stack[..|stack| - 1];
      var merged := WithTop(rest, AddItem(Top(rest), Top(stack)));
      assert NeverCompletes(merged[i]);
      PopStuck(merged);
    }
  }

  lemma TokenStuck(r: Reader)
    requires StatusFits(r.status, r.stack) && Stuck(r.stack) && (r.status.Header? ==> Stuck(r.stack[..|r.stack| - 1]))
    ensures ReadToken(r).Whole? ==>
              var next := ReadToken(r).next;
              Stuck(next.stack) && (next.status.Header? ==> Stuck(next.stack[..|next.stack| - 1]))
  {
    var i :| 0 <= i < |r.stack| && NeverCompletes(r.stack[i]) && (r.status.Header? ==> i < |r.stack| - 1);
    if ReadToken(r).Whole? {
      var next := ReadToken(r).next;
      assert next.stack[i] == r.stack[i];
      if r.status.Type? {
        assert next.stack[..|next.stack| - 1] == r.stack;
      }
    }
  }

  /** Once an array of stated length 0 is on the stack nothing is delivered any more, whatever follows. */
  lemma {:induction false} StuckForever(r: Reader)
    requires StatusFits(r.status, r.stack) && Stuck(r.stack) && (r.status.Header? ==> Stuck(r.stack[..|r.stack| - 1]))
    ensures Read(r).out == []
    decreases |r.input|
  {
    hide ReadToken;
    PopKeepsStatus(r);
    PopStuck(r.stack);
    var popped := r.(stack := PopCompleted(r.stack, []).0);
    TokenStuck(popped);
    if ReadToken(popped).Whole? {
      StuckForever(ReadToken(popped).next);
    }
  }

  /** An empty array never completes: it swallows all that comes after it. */
  lemma EmptyArrayIsNeverDelivered(more: Bytes)
    ensures Read(Fresh([STAR] + Print(0) + DELIMITER + more)).out == []
  {
    var header := Print(0) + DELIMITER + more;
    assert [STAR] + Print(0) + DELIMITER + more == [STAR] + header;
    TypeToken([], STAR, header);
    HeaderToken([] + [NoArray(0)], 0, more);
    var stack := WithTop([] + [NoArray(0)], NoArray(0));
    assert NeverCompletes(stack[0]);
    StuckForever(Reader(Type, stack, more));
  }

  /** Integers, null bulk strings and null arrays are printed but make the parser fail. */
  lemma PrintedButNotRead(i: int, n: nat, more: Bytes)
    ensures Read(Fresh(Serialize(Integer(Some(i))) + more)).failed
    ensures Read(Fresh(Serialize(BulkStr(n, None)) + more)).failed
    ensures Read(Fresh(Serialize(NoArray(n)) + more)).failed
  {
    hide Read;
    IntegerFails(i, more);
    NullFails(DOLLAR, more);
    NullFails(STAR, more);
  }

  lemma PrintIntNoNewLine(i: int)
    ensures forall j: nat :: !NewLineAt(PrintInt(i), j)
  {
    PrintDigits(if i < 0 then -i else i);
    DigitsHaveNoNewLine(Print(if i < 0 then -i else i));
    if i < 0 {
      forall j: nat
        ensures !NewLineAt(PrintInt(i), j)
      {
        assert j > 0 ==> !NewLineAt(Print(-i), j - 1);
      }
    }
  }

  lemma IntegerFails(i: int, more: Bytes)
    ensures Read(Fresh(Serialize(Integer(Some(i))) + more)).failed
  {
    var line := PrintInt(i) + DELIMITER + more;
    assert Serialize(Integer(Some(i))) + more == [COLON] + line;
    TypeToken([], COLON, line);
    PrintIntNoNewLine(i);
    FirstLine(PrintInt(i), more);
    hide Read;
    MalformedFails(Reader(Line, [] + [Integer(None)], line));
  }

  lemma MalformedFails(r: Reader)
    requires StatusFits(r.status, r.stack) && Settled(r.stack) && ReadToken(r) == Malformed
    ensures Read(r).failed
  {
    assert r.(stack := r.stack) == r;
  }

  lemma NullFails(prefix: Byte, more: Bytes)
    requires prefix == DOLLAR || prefix == STAR
    ensures Read(Fresh([prefix] + PrintInt(-1) + DELIMITER + more)).failed
  {
    hide Read, ParseUsize, PrintInt, FindNewLine;
    var line := PrintInt(-1) + DELIMITER + more;
    Regroup([prefix], PrintInt(-1), DELIMITER);
    Regroup([prefix], PrintInt(-1) + DELIMITER, more);
    TypeToken([], prefix, line);
    PrintIntNoNewLine(-1);
    FirstLine(PrintInt(-1), more);
    MinusOneIsNoLength();
    MalformedFails(Reader(Header, [] + [MatchPrefix(prefix).value], line));
  }

  lemma {:induction false} BadFirstDigit(s: Bytes)
    requires s != [] && DigitOf(s[0]) == None
    ensures DigitsValue(s) == None
  {
    if |s| > 1 {
      BadFirstDigit(s[..|s| - 1]);
    }
  }

  lemma MinusOneIsNoLength()
    ensures ParseUsize(PrintInt(-1)) == None
  {
    SignsAreNotDigits();
    BadFirstDigit(PrintInt(-1));
  }

  // ----- The byte the parser may be late

  /**
   * Frames that arrive whole, in any pieces: all of them are delivered, but for the last exactly when the cut is late.
   */
  lemma FramesCut(vs: seq<RespType>, chunks: seq<Bytes>)
    requires AllWellFormed(vs) && Concat(chunks) == PrintAll(vs)
    ensures Receive(chunks).2 && (LateCut(chunks) ==> vs != [])
    ensures Receive(chunks).1 == if LateCut(chunks) then vs[..|vs| - 1] else vs
  {
    CuttingDecides(chunks);
    PrintedRead(vs);
    var (p, out, _) := Receive(chunks);
    hide *;
    if LateCut(chunks) {
      LacksOne(p, out, Reading(vs, IDLE, false));
    }
  }

  /** After the header of a bulk string, on whatever stack, its body begins. */
  lemma NextBulk(stack: seq<RespType>, size: nat)
    requires Settled(stack) && size < TWO_64
    ensures Read(Reader(Type, stack, [DOLLAR] + (Print(size) + DELIMITER)))
         == Reading([], Reader(Bulk(size), stack + [BulkStr(size, None)], []), false)
  {
    hide Print, ParseUsize, FindNewLine, PopCompleted, Read, ReadToken;
    var header := Print(size) + DELIMITER + [];
    assert Print(size) + DELIMITER == header;
    TypeToken(stack, DOLLAR, header);
    var top := stack + [BulkStr(0, None)];
    HeaderToken(top, size, []);
    assert WithTop(top, BulkStr(size, None)) == stack + [BulkStr(size, None)];
    NoBodyYet(stack, size);
  }

  lemma NoBodyYet(stack: seq<RespType>, size: nat)
    ensures var r := Reader(Bulk(size), stack + [BulkStr(size, None)], []);
            StatusFits(r.status, r.stack) && Read(r) == Reading([], r, false)
  {
    PartialRead(Reader(Bulk(size), stack + [BulkStr(size, None)], []));
    hide Read;
  }

  lemma HeaderBegins(n: nat)
    requires n < TWO_64
    ensures BodyBegins([DOLLAR] + Print(n) + DELIMITER, n)
  {
    NextBulk([], n);
    Regroup([DOLLAR], Print(n), DELIMITER);
    hide Read, Print;
  }

  /** So it does for the next item of an unfinished array. */
  lemma ItemBegins(n: nat, items: seq<RespType>, size: nat)
    requires |items| < n && AllWellFormed(items) && n < TWO_64 && size < TWO_64
    requires forall i :: 0 <= i < |items| ==> Printable(items[i])
    ensures BodyBegins([STAR] + (Print(n) + DELIMITER + (SerializeAll(items) + ([DOLLAR] + (Print(size) + DELIMITER)))), size)
  {
    hide Print, Serialize, SerializeAll, PopCompleted, Read, ReadToken, WellFormed, Printable;
    var rest := [DOLLAR] + (Print(size) + DELIMITER);
    var body := SerializeAll(items) + rest;
    TypeToken([], STAR, Print(n) + DELIMITER + body);
    var open := [] + [NoArray(0)];
    HeaderToken(open, n, body);
    assert WithTop(open, NoArray(n)) == [] + [NoArray(n)];
    ItemsRead(n, items, 0, [], rest);
    assert items[0..] == items;
    NextBulk([] + [Filled(n, items, |items|)], size);
  }

  lemma PartialRead(r: Reader)
    requires StatusFits(r.status, r.stack) && !r.status.Type? && ReadToken(r) == Partial(r)
    ensures Read(r) == Reading([], r, false)
  {
    PopKeepsStatus(r);
  }

  /**
   * A bulk string whose body arrives in three pieces is delivered with its last byte, unless the second piece takes the
   * cursor to the end: exactly then nothing is delivered although all is in.
   */
  lemma BodyInThreePieces(s: Bytes, a: Bytes, b: Bytes, c: Bytes)
    requires |s| < TWO_64 && s + DELIMITER == a + b + c
    requires a != [] && b != [] && c != []
    ensures Receive([[DOLLAR] + Print(|s|) + DELIMITER + a, b, c]).1
         == if 2 * |a| + |b| >= |s| + 2 then [] else [BulkStr(|s|, Some(s))]
  {
    var v := BulkStr(|s|, Some(s));
    var header := [DOLLAR] + Print(|s|) + DELIMITER;
    var chunks := [header + a, b, c];
    PrintOne(v);
    HeaderBegins(|s|);
    assert |a| + |b| + |c| == |s| + 2 by { assert |s + DELIMITER| == |a + b + c|; }
    ThreePieces(header, |s|, a, b, c);
    assert Concat(chunks) == Serialize(v) by {
      InThree(header + a, b, c);
      Regroup(header, s, DELIMITER);
      Regrouped(header, a, b, c);
      assert Serialize(v) == header + s + DELIMITER;
    }
    hide LateCut, Receive, PrintAll, Serialize, Concat, Print;
    FramesCut([v], chunks);
  }

  lemma InThree(a: Bytes, b: Bytes, c: Bytes)
    ensures Concat([a, b, c]) == a + b + c
  {
    assert [a][..0] == [] && [a, b][..1] == [a] && [a, b, c][..2] == [a, b];
    assert Concat([a]) == a by { assert [] + a == a; }
  }

  lemma Regrouped(header: Bytes, a: Bytes, b: Bytes, c: Bytes)
    ensures header + (a + b + c) == header + a + b + c
  {
  }

  lemma PrintOne(v: RespType)
    requires WellFormed(v)
    ensures AllWellFormed([v]) && Printable(v) && PrintAll([v]) == Serialize(v)
  {
    WellFormedPrintable(v);
    assert [v][1..] == [];
    assert SerializeAll([]) == [];
    assert Serialize(v) + [] == Serialize(v);
  }
}
