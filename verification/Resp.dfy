/** src/resp.rs as functions: the values, the printer, and the parser as a map between its states. */
module Resp {
  import opened Base
  import opened Decimal

  const CR: Byte := 0x0D
  const LF: Byte := 0x0A
  const DELIMITER: Bytes := [CR, LF]
  const COLON: Byte := 0x3A
  const DOLLAR: Byte := 0x24
  const STAR: Byte := 0x2A

  // ----- Values

  /**
   * `Array` and `NoArray` are the source's `Array` with and without a value.
   * `Unhandled` stands for the prefixes the parser pushes but never fills in: null, bool, double, map, ..
   */
  datatype RespType =
    | SimpleStr(text: Option<Bytes>)
    | Error(text: Option<Bytes>)
    | Integer(number: Option<int>)
    | BulkStr(length: nat, bulk: Option<Bytes>)
    | Array(length: nat, items: seq<RespType>)
    | NoArray(length: nat)
    | Unhandled(prefix: Byte)

  function MatchPrefix(b: Byte): Option<RespType> {
    if b == PLUS then Some(SimpleStr(None))
    else if b == MINUS then Some(Error(None))
    else if b == COLON then Some(Integer(None))
    else if b == DOLLAR then Some(BulkStr(0, None))
    else if b == STAR then Some(NoArray(0))
    // '_' '#' ',' '!' '=' '%' '|' '~' '>'
    else if b in {0x5F, 0x23, 0x2C, 0x21, 0x3D, 0x25, 0x7C, 0x7E, 0x3E} then Some(Unhandled(b))
    else None
  }

  predicate IsCompleted(v: RespType) {
    match v
    case SimpleStr(o) => o.Some?
    case Error(o) => o.Some?
    case Integer(o) => o.Some?
    case BulkStr(_, o) => o.Some?
    case Array(n, items) => |items| == n
    case NoArray(_) => false
    case Unhandled(_) => false
  }

  function SetLength(v: RespType, n: nat): RespType {
    match v
    case BulkStr(_, o) => BulkStr(n, o)
    case Array(_, items) => Array(n, items)
    case NoArray(_) => NoArray(n)
    case _ => v
  }

  function AddItem(v: RespType, item: RespType): RespType {
    match v
    case NoArray(n) => Array(n, [item])
    case Array(n, items) => Array(n, items + [item])
    case _ => v
  }

  /** `set_value` with a string: `None` is "Not implemented"; a value already there stays. */
  function SetValue(v: RespType, s: Bytes): Option<RespType> {
    match v
    case SimpleStr(None) => Some(SimpleStr(Some(s)))
    case Error(None) => Some(Error(Some(s)))
    case BulkStr(n, None) => Some(BulkStr(n, Some(s)))
    case Integer(_) => None
    case Array(_, _) => None
    case NoArray(_) => None
    case Unhandled(_) => None
    case _ => Some(v)
  }

  // ----- Printing

  /** The values `serialize` has an arm for. */
  predicate Printable(v: RespType) {
    match v
    case Unhandled(_) => false
    case Array(_, items) => forall i :: 0 <= i < |items| ==> Printable(items[i])
    case _ => true
  }

  function Serialize(v: RespType): Bytes
    requires Printable(v)
    decreases v, 0
  {
    match v
    case SimpleStr(Some(s)) => [PLUS] + s + DELIMITER
    case Error(Some(s)) => [MINUS] + s + DELIMITER
    case Integer(Some(i)) => [COLON] + PrintInt(i) + DELIMITER
    case BulkStr(n, Some(s)) => [DOLLAR] + Print(n) + DELIMITER + s + DELIMITER
    case BulkStr(_, None) => [DOLLAR] + PrintInt(-1) + DELIMITER
    case Array(n, items) => [STAR] + Print(n) + DELIMITER + SerializeAll(items)
    case NoArray(_) => [STAR] + PrintInt(-1) + DELIMITER
    case _ => []
  }

  function SerializeAll(vs: seq<RespType>): Bytes
    requires forall i :: 0 <= i < |vs| ==> Printable(vs[i])
    decreases vs, 1
  {
    if vs == [] then [] else Serialize(vs[0]) + SerializeAll(vs[1..])
  }

  // ----- Scanning

  /** The first index at or after `from` that holds a type prefix, or the length. */
  function FindPrefix(s: Bytes, from: nat): (i: nat)
    requires from <= |s|
    ensures from <= i <= |s|
    ensures i < |s| ==> MatchPrefix(s[i]).Some?
    decreases |s| - from
  {
    if from == |s| || MatchPrefix(s[from]).Some? then from else FindPrefix(s, from + 1)
  }

  predicate NewLineAt(s: Bytes, i: nat) {
    i + 1 < |s| && s[i] == CR && s[i + 1] == LF
  }

  /** The first index at or after `from` where CR LF stands, if any. */
  function FindNewLine(s: Bytes, from: nat): (i: Option<nat>)
    ensures i.Some? ==> from <= i.value && NewLineAt(s, i.value)
    ensures i.Some? ==> forall j :: from <= j < i.value ==> !NewLineAt(s, j)
    ensures i.None? ==> forall j :: from <= j ==> !NewLineAt(s, j)
    decreases |s| - from
  {
    if |s| < from + 2 then None
    else if NewLineAt(s, from) then Some(from)
    else FindNewLine(s, from + 1)
  }

  // ----- The parser

  /** What the parser waits for. */
  datatype Status = Type | Header | Line | Bulk(n: nat)

  /** The fields of `RespParser`. */
  datatype Parser = Parser(
    buf: Bytes, cur: nat, start: nat, stack: seq<RespType>, completed: seq<RespType>, status: Status)

  const NEW: Parser := Parser([], 0, 0, [], [], Type)

  function Top(stack: seq<RespType>): RespType
    requires stack != []
  {
    stack[|stack| - 1]
  }

  function WithTop(stack: seq<RespType>, v: RespType): seq<RespType>
    requires stack != []
  {
    stack[..|stack| - 1] + [v]
  }

  /** The stack is topped by the unfilled value the status is about. */
  predicate StatusFits(status: Status, stack: seq<RespType>) {
    match status
    case Type => true
    case Header => stack != [] && (Top(stack) == BulkStr(0, None) || Top(stack) == NoArray(0))
    case Line => stack != [] && (Top(stack) == SimpleStr(None) || Top(stack) == Integer(None))
    case Bulk(n) => stack != [] && Top(stack) == BulkStr(n, None)
  }

  /** What holds of every parser between two calls: `buf_cur` passes the end only inside a bulk body. */
  ghost predicate Valid(p: Parser) {
    && p.start <= p.cur
    && StatusFits(p.status, p.stack)
    && (p.status.Bulk? ==> p.start == 0 && p.cur <= p.status.n + 2)
    && (!p.status.Bulk? ==> p.cur <= |p.buf|)
    && (p.status.Header? || p.status.Line? ==> NoNewLineBefore(p.buf, p.start, p.cur))
  }

  ghost predicate NoNewLineBefore(buf: Bytes, start: nat, cur: nat) {
    (start < cur ==> cur < |buf|) && forall j :: start <= j < cur ==> !NewLineAt(buf, j)
  }

  function Feed(p: Parser, data: Bytes): Parser {
    p.(buf := p.buf + data)
  }

  /** `pop_completed`: completed values move into the array below them, the bottom one out of the stack. */
  function PopCompleted(stack: seq<RespType>, completed: seq<RespType>): (seq<RespType>, seq<RespType>)
    decreases |stack|
  {
    if stack == [] || !IsCompleted(Top(stack)) then (stack, completed)
    else
      var rest := stack[..|stack| - 1];
      if rest == [] then ([], completed + [Top(stack)])
      else PopCompleted(WithTop(rest, AddItem(Top(rest), Top(stack))), completed)
  }

  function Popped(p: Parser): Parser {
    var (stack, completed) := PopCompleted(p.stack, p.completed);
    p.(stack := stack, completed := completed)
  }

  function Drained(p: Parser, cur: nat): Parser
    requires cur <= |p.buf|
  {
    p.(buf := p.buf[cur..], cur := 0, start := 0)
  }

  datatype Next = Continue(p: Parser) | Stop(p: Parser) | Fail(p: Parser)

  /** One round of the loop of `parse`, after `pop_completed` and the check for unread bytes. */
  function Advance(p: Parser): Next
    requires Valid(p) && p.cur < |p.buf|
  {
    match p.status
    case Type => AdvanceType(p)
    case Header => AdvanceHeader(p)
    case Line => AdvanceLine(p)
    case Bulk(n) => AdvanceBulk(p, n)
  }

  function StatusAfterPrefix(v: RespType): Status {
    match v
    case NoArray(_) => Header
    case BulkStr(_, _) => Header
    case SimpleStr(_) => Line
    case Integer(_) => Line
    case _ => Type
  }

  function AdvanceType(p: Parser): Next
    requires Valid(p) && p.status.Type? && p.cur < |p.buf|
  {
    var i := FindPrefix(p.buf, p.cur);
    if i == |p.buf| then Continue(p.(cur := i))
    else
      var v := MatchPrefix(p.buf[i]).value;
      Continue(p.(cur := i + 1, start := i + 1, stack := p.stack + [v], status := StatusAfterPrefix(v)))
  }

  function AdvanceHeader(p: Parser): Next
    requires Valid(p) && p.status.Header? && p.cur < |p.buf|
  {
    match FindNewLine(p.buf, p.cur)
    case None => Stop(p.(cur := |p.buf| - 1))
    case Some(i) =>
      var drained := Drained(p, i + 2);
      match ParseUsize(p.buf[p.start..i])
      case None => Fail(drained.(status := Type))
      case Some(n) =>
        Continue(drained.(stack := WithTop(p.stack, SetLength(Top(p.stack), n)),
                          status := if Top(p.stack).BulkStr? then Bulk(n) else Type))
  }

  function AdvanceLine(p: Parser): Next
    requires Valid(p) && p.status.Line? && p.cur < |p.buf|
  {
    match FindNewLine(p.buf, p.cur)
    case None => Stop(p.(cur := |p.buf| - 1))
    case Some(i) =>
      var drained := Drained(p, i + 2);
      match SetValue(Top(p.stack), p.buf[p.start..i])
      case None => Fail(drained.(status := Type))
      case Some(v) => Continue(drained.(stack := WithTop(p.stack, v), status := Type))
  }

  /** `read_bytes` moves the cursor by what is missing of the body, or by the whole buffer length if that is less. */
  function AdvanceBulk(p: Parser, n: nat): Next
    requires Valid(p) && p.status == Bulk(n) && p.cur < |p.buf|
  {
    var cur := p.cur + Min(n + 2 - p.cur, |p.buf|);
    if cur <= |p.buf| && cur == n + 2 then
      if NewLineAt(p.buf, n) then
        var v := SetValue(Top(p.stack), p.buf[..n]).value;
        Continue(Drained(p, cur).(stack := WithTop(p.stack, v), status := Type))
      else Continue(p.(cur := cur, status := Type))
    else Continue(p.(cur := cur))
  }

  /** Bytes the cursor has not reached. */
  function Unread(p: Parser): nat {
    Max(|p.buf| - p.cur, 0)
  }

  function Rank(status: Status): nat {
    if status.Type? then 0 else 1
  }

  /** `q` lies ahead of `p`: fewer unread bytes, or as many in an easier status, or only values moved out of the stack. */
  predicate Ahead(q: Parser, p: Parser) {
    || Unread(q) < Unread(p)
    || (Unread(q) == Unread(p) && Rank(q.status) < Rank(p.status))
    || (Unread(q) == Unread(p) && q.status == p.status && |q.stack| + |q.completed| <= |p.stack| + |p.completed|)
  }

  lemma {:induction false} PopCompletedShrinks(stack: seq<RespType>, completed: seq<RespType>)
    ensures var (s, c) := PopCompleted(stack, completed);
            && |s| + |c| <= |stack| + |completed|
            && (s == [] || !IsCompleted(Top(s)))
            && completed <= c
            && |c| <= |completed| + 1
            && (c != completed ==> s == [])
    decreases |stack|
  {
    if stack != [] && IsCompleted(Top(stack)) && |stack| > 1 {
      var rest := stack[..|stack| - 1];
      PopCompletedShrinks(WithTop(rest, AddItem(Top(rest), Top(stack))), completed);
    }
  }

  /** A value the status waits to fill is not completed, so popping leaves it alone. */
  lemma PoppedValid(p: Parser)
    requires Valid(p)
    ensures Valid(Popped(p)) && Ahead(Popped(p), p)
    ensures p.status != Type ==> Popped(p) == p
  {
    PopCompletedShrinks(p.stack, p.completed);
  }

  /** Every round of the loop that goes on has read something, or has left a bulk body for the next type. */
  ghost predicate Progress(p: Parser, next: Next) {
    && Valid(next.p)
    && next.p.completed == p.completed
    && Unread(next.p) <= Unread(p)
    && (next.Continue? && Unread(next.p) == Unread(p) ==> Rank(next.p.status) < Rank(p.status))
    && (next.Stop? ==> next.p.stack == p.stack && next.p.status == p.status)
  }

  lemma AdvanceProgress(p: Parser)
    requires Valid(p) && p.cur < |p.buf|
    ensures Progress(p, Advance(p))
  {
    match p.status
    case Type =>
    case Header => AdvanceHeaderProgress(p);
    case Line => AdvanceLineProgress(p);
    case Bulk(n) => AdvanceBulkProgress(p, n);
  }

  lemma AdvanceHeaderProgress(p: Parser)
    requires Valid(p) && p.cur < |p.buf| && p.status.Header?
    ensures Progress(p, AdvanceHeader(p))
  {
  }

  lemma AdvanceLineProgress(p: Parser)
    requires Valid(p) && p.cur < |p.buf| && p.status.Line?
    ensures Progress(p, AdvanceLine(p))
  {
  }

  lemma AdvanceBulkProgress(p: Parser, n: nat)
    requires Valid(p) && p.cur < |p.buf| && p.status == Bulk(n)
    ensures Progress(p, AdvanceBulk(p, n))
  {
  }

  /** `parse(false)`: the state it leaves and whether it returned `Ok`. Terminates from every valid state, on any bytes. */
  function Parse(p: Parser): (r: (Parser, bool))
    requires Valid(p)
    ensures Valid(r.0)
    ensures r.1 ==> Ahead(r.0, p)
    ensures !r.1 ==> r.0.completed == [] && r.0.status.Type?
    ensures p.completed != [] ==> r.1 && r.0.completed != []
    decreases Unread(p), Rank(p.status)
  {
    PoppedValid(p);
    PopCompletedShrinks(p.stack, p.completed);
    var q := Popped(p);
    if q.completed != [] || q.cur >= |q.buf| then (q, true)
    else
      AdvanceProgress(q);
      match Advance(q)
      case Continue(next) => Parse(next)
      case Stop(next) => (next, true)
      case Fail(next) => (next, false)
  }

  /** The read loop around `parse` and `get_completed`: what it hands on, until nothing is completed or `parse` fails. */
  function Deliver(p: Parser): (r: (Parser, seq<RespType>, bool))
    requires Valid(p)
    ensures Valid(r.0)
    ensures !r.2 ==> r.0.status.Type?
    decreases Unread(p), Rank(p.status), |p.stack| + |p.completed|
  {
    var (q, ok) := Parse(p);
    if !ok then (q, [], false)
    else if q.completed == [] then (q, [], true)
    else
      var (r, out, ok') := Deliver(q.(completed := q.completed[1..]));
      (r, [q.completed[0]] + out, ok')
  }

  lemma FeedValid(p: Parser, data: Bytes)
    requires Valid(p)
    ensures Valid(Feed(p, data))
  {
    if p.status.Header? || p.status.Line? {
      forall j | p.start <= j < p.cur
        ensures !NewLineAt(p.buf + data, j)
      {
        assert !NewLineAt(p.buf, j);
      }
    }
  }
}
