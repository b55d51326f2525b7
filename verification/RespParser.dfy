/** src/resp.rs, `RespParser`: the parser that is fed and drained in place. */
module RespParsers {
  import opened Base
  import opened Decimal
  import opened Resp

  /** What `read_bytes` found: a whole body, a body still incomplete, or one not followed by CR LF. */
  datatype ReadResult = Body(bytes: Bytes) | Incomplete | BadEnding

  /** How one round of the loop of `parse` ends. */
  datatype Outcome = Again | Stopped | Failed

  class RespParser {
    var buf: Bytes
    var cur: nat
    var start: nat
    var stack: seq<RespType>
    var completed: seq<RespType>
    var status: Status

    function View(): Parser
      reads this
    {
      Parser(buf, cur, start, stack, completed, status)
    }

    constructor ()
      ensures View() == NEW
    {
      buf, cur, start, stack, completed, status := [], 0, 0, [], [], Type;
    }

    method FeedBuf(data: Bytes)
      modifies this`buf
      ensures View() == Feed(old(View()), data)
    {
      buf := buf + data;
    }

    method PopAllCompleted()
      modifies this`stack, this`completed
      ensures View() == Popped(old(View()))
    {
      while stack != []
        invariant PopCompleted(stack, completed) == PopCompleted(old(stack), old(completed))
        decreases |stack|
      {
        var top := Top(stack);
        if !IsCompleted(top) {
          break;
        }
        stack := stack[..|stack| - 1];
        if stack == [] {
          completed := completed + [top];
        } else {
          stack := WithTop(stack, AddItem(Top(stack), top));
        }
      }
    }

    method GetCompleted() returns (v: Option<RespType>)
      modifies this`completed
      ensures old(completed) == [] ==> v == None && completed == []
      ensures old(completed) != [] ==> v == Some(old(completed)[0]) && completed == old(completed)[1..]
    {
      if completed == [] {
        v := None;
      } else {
        v := Some(completed[0]);
        completed := completed[1..];
      }
    }

    method NextTillType() returns (v: Option<RespType>)
      requires cur <= |buf|
      modifies this`cur, this`start
      ensures var i := FindPrefix(buf, old(cur));
              if i == |buf| then v == None && cur == i && start == old(start)
              else v == MatchPrefix(buf[i]) && cur == start == i + 1
    {
      while cur < |buf|
        invariant old(cur) <= cur <= |buf|
        invariant FindPrefix(buf, cur) == FindPrefix(buf, old(cur))
        invariant start == old(start)
      {
        v := MatchPrefix(buf[cur]);
        cur := cur + 1;
        if v.Some? {
          start := cur;
          return;
        }
      }
      v := None;
    }

    method NextTillNewLine() returns (line: Option<Bytes>)
      requires start <= cur < |buf|
      modifies this`cur, this`start
      ensures match FindNewLine(buf, old(cur))
              case None => line == None && cur == |buf| - 1 && start == old(start)
              case Some(i) => line == Some(buf[old(start)..i]) && cur == start == i + 2 <= |buf|
    {
      while |buf| - cur >= 2
        invariant old(cur) <= cur < |buf|
        invariant FindNewLine(buf, cur) == FindNewLine(buf, old(cur))
        invariant start == old(start)
      {
        if buf[cur] == CR && buf[cur + 1] == LF {
          line := Some(buf[start..cur]);
          cur := cur + 2;
          start := cur;
          return;
        }
        cur := cur + 1;
      }
      line := None;
    }

    method ReadBytes(n: nat) returns (r: ReadResult)
      requires start == 0 && cur <= n + 2
      modifies this`cur
      ensures cur == old(cur) + Min(n + 2 - old(cur), |buf|)
      ensures if cur <= |buf| && cur == n + 2
              then r == if NewLineAt(buf, n) then Body(buf[..n]) else BadEnding
              else r == Incomplete
    {
      var wanted := n + 2 - (cur - start);
      cur := cur + Min(wanted, |buf|);
      if cur <= |buf| && cur - start == n + 2 {
        if buf[start + n] == CR && buf[start + n + 1] == LF {
          r := Body(buf[start..cur - 2]);
        } else {
          r := BadEnding;
        }
      } else {
        r := Incomplete;
      }
    }

    method DrainTillBuf()
      requires cur <= |buf|
      modifies this`buf, this`cur, this`start
      ensures View() == Drained(old(View()), old(cur))
    {
      buf := buf[cur..];
      cur, start := 0, 0;
    }

    /** The arm of `parse` for a header: the length goes to the value on top of the stack. */
    method ParseHeader() returns (next: Outcome)
      requires Valid(View()) && cur < |buf| && status.Header?
      modifies this
      ensures Matches(next, AdvanceHeader(old(View())))
    {
      status := Type;
      var line := NextTillNewLine();
      if line.None? {
        status := Header;
        return Stopped;
      }
      DrainTillBuf();
      var length := ParseUsize(line.value);
      if length.None? {
        return Failed;
      }
      var top := Top(stack);
      stack := WithTop(stack, SetLength(top, length.value));
      status := if top.BulkStr? then Bulk(length.value) else Type;
      return Again;
    }

    method ParseLine() returns (next: Outcome)
      requires Valid(View()) && cur < |buf| && status.Line?
      modifies this
      ensures Matches(next, AdvanceLine(old(View())))
    {
      status := Type;
      var line := NextTillNewLine();
      if line.None? {
        status := Line;
        return Stopped;
      }
      DrainTillBuf();
      var v := SetValue(Top(stack), line.value);
      if v.None? {
        return Failed;
      }
      stack := WithTop(stack, v.value);
      return Again;
    }

    method ParseBulk(n: nat) returns (next: Outcome)
      requires Valid(View()) && cur < |buf| && status == Bulk(n)
      modifies this
      ensures Matches(next, AdvanceBulk(old(View()), n))
    {
      status := Type;
      var r := ReadBytes(n);
      match r {
        case Body(bytes) =>
          DrainTillBuf();
          stack := WithTop(stack, SetValue(Top(stack), bytes).value);
        case Incomplete =>
          status := Bulk(n);
        case BadEnding =>
      }
      return Again;
    }

    method ParseType() returns (next: Outcome)
      requires Valid(View()) && cur < |buf| && status.Type?
      modifies this
      ensures Matches(next, AdvanceType(old(View())))
    {
      var v := NextTillType();
      if v.Some? {
        stack := stack + [v.value];
        status := StatusAfterPrefix(v.value);
      }
      return Again;
    }

    ghost predicate Matches(outcome: Outcome, next: Next)
      reads this
    {
      && View() == next.p
      && outcome == match next case Continue(_) => Again case Stop(_) => Stopped case Fail(_) => Failed
    }

    method Parse() returns (ok: bool)
      requires Valid(View())
      modifies this
      ensures (View(), ok) == Resp.Parse(old(View())) && Valid(View())
    {
      hide Advance, AdvanceType, AdvanceHeader, AdvanceLine, AdvanceBulk, PopCompleted, StatusFits, NoNewLineBefore;
      while true
        invariant Valid(View())
        invariant Resp.Parse(View()) == Resp.Parse(old(View()))
        decreases Unread(View()), Rank(status)
      {
        PoppedValid(View());
        PopAllCompleted();
        if completed != [] || cur >= |buf| {
          return true;
        }
        AdvanceProgress(View());
        ghost var popped := View();
        var next := Round();
        match next {
          case Again =>
          case Stopped => return true;
          case Failed => return false;
        }
      }
    }

    method Round() returns (next: Outcome)
      requires Valid(View()) && cur < |buf|
      modifies this
      ensures Matches(next, Advance(old(View())))
    {
      match status {
        case Type => next := ParseType();
        case Header => next := ParseHeader();
        case Line => next := ParseLine();
        case Bulk(n) => next := ParseBulk(n);
      }
    }

    /** There is less left for the read loop to do. */
    ghost predicate Shorter(p: Parser)
      reads this
    {
      var q := View();
      && Ahead(q, p)
      && (q.status == p.status && Unread(q) == Unread(p) ==> |q.stack| + |q.completed| < |p.stack| + |p.completed|)
    }

    /** One turn of the read loop: `parse`, then `get_completed`; after a failed `parse` there is nothing to get. */
    method NextValue() returns (v: Option<RespType>, ok: bool)
      requires Valid(View())
      modifies this
      ensures Valid(View())
      ensures match v
              case None => Deliver(old(View())) == (View(), [], ok)
              case Some(first) =>
                var (p, rest, done) := Deliver(View());
                ok && Deliver(old(View())) == (p, [first] + rest, done) && Shorter(old(View()))
    {
      hide Resp.Parse, StatusFits, NoNewLineBefore;
      ok := Parse();
      ghost var parsed := View();
      v := GetCompleted();
      assert v.Some? ==> Unread(View()) == Unread(parsed);
    }

    /** The read loop of a client and of the log replay: parse, hand on, until nothing is completed. */
    method DeliverAll() returns (out: seq<RespType>, ok: bool)
      requires Valid(View())
      modifies this
      ensures (View(), out, ok) == Deliver(old(View())) && Valid(View())
    {
      hide Deliver, Valid;
      out := [];
      ghost var all := Deliver(View());
      assert out + all.1 == all.1;
      while true
        invariant Valid(View())
        invariant var (p, rest, done) := Deliver(View()); all == (p, out + rest, done)
        decreases Unread(View()), Rank(status), |stack| + |completed|
      {
        var v;
        v, ok := NextValue();
        if v.None? {
          assert out + [] == out;
          return;
        }
        Regroup(out, [v.value], Deliver(View()).1);
        out := out + [v.value];
      }
    }
  }
}
