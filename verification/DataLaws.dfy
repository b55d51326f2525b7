/** What the string and list commands promise one another. */
module DataLaws {
  import opened Base
  import opened Decimal
  import opened Commands
  import opened Store
  import opened Bitmaps

  // ----- SET, GET

  predicate Readable(expiry: Option<Expiry>, now: nat, later: nat) {
    match expiry
    case Some(EX(seconds)) => later <= now / 1000 + seconds
    case Some(PX(millis)) => later <= now + millis
    case _ => true
  }

  /** SET then GET: the value until the expiry, none after it. */
  lemma SetThenGet(data: Data, key: Key, value: Bytes, expiry: Option<Expiry>, now: nat, later: nat)
    ensures var stored := SetOp(data, key, value, expiry, now).0;
            GetOp(stored, key, later) == Reply(Bulk(if Readable(expiry, now, later) then Some(value) else None))
  {
  }

  /**
   * PX keeps the value for exactly the milliseconds asked for. EX adds seconds to a clock in seconds and compares with
   * a clock in milliseconds: it does what PX does with 1000 times as much only for 0 seconds at the clock's very start.
   */
  lemma ExIsPx(data: Data, key: Key, value: Bytes, seconds: nat, now: nat)
    ensures (forall later: nat :: later >= now ==> SameSight(data, key, value, seconds, now, later))
       <==> seconds == now == 0
  {
    var promised := now + 1000 * seconds;
    if seconds > 0 || now > 0 {
      assert now / 1000 + seconds < promised && promised >= now;
      assert !SameSight(data, key, value, seconds, now, promised) by {
        SetThenGet(data, key, value, Some(EX(seconds)), now, promised);
        SetThenGet(data, key, value, Some(PX(1000 * seconds)), now, promised);
      }
    }
  }

  predicate SameSight(data: Data, key: Key, value: Bytes, seconds: nat, now: nat, later: nat) {
    GetOp(SetOp(data, key, value, Some(EX(seconds)), now).0, key, later)
    == GetOp(SetOp(data, key, value, Some(PX(1000 * seconds)), now).0, key, later)
  }

  /** With the clock of any day since 1970 a value set with EX is gone at once, unless it is to live for ages. */
  lemma ExIsGoneAtOnce(data: Data, key: Key, value: Bytes, seconds: nat, now: nat)
    ensures GetOp(SetOp(data, key, value, Some(EX(seconds)), now).0, key, now) == Reply(Bulk(None))
       <==> now - now / 1000 > seconds
  {
    SetThenGet(data, key, value, Some(EX(seconds)), now, now);
  }

  // ----- INCR

  /** The n-th INCR of a key. */
  function Incremented(data: Data, key: Key, n: nat): Data {
    if n == 0 then data else IncrOp(Incremented(data, key, n - 1), key).0
  }

  lemma OneIncr(data: Data, key: Key, i: int)
    requires key in data && data[key].value == Str(PrintInt(i)) && -I64_MAX - 1 <= i < I64_MAX
    ensures IncrOp(data, key) == (data[key := data[key].(value := Str(PrintInt(i + 1)))], Reply(Int(i + 1)))
  {
    hide PrintInt, ParseI64, Print;
    ParsePrintInt(i);
  }

  /** Starting from a number, n INCRs below the maximum count up by one each, and GET reads the sum. */
  lemma {:induction false} IncrCounts(data: Data, key: Key, start: int, n: nat)
    requires key in data && data[key] == Item(Str(PrintInt(start)), None)
    requires -I64_MAX - 1 <= start && start + n <= I64_MAX
    ensures Incremented(data, key, n) == data[key := Item(Str(PrintInt(start + n)), None)]
    ensures n > 0 ==> IncrOp(Incremented(data, key, n - 1), key).1 == Reply(Int(start + n))
  {
    hide PrintInt, IncrOp;
    if n == 0 {
      assert data == data[key := data[key]];
    } else {
      IncrCounts(data, key, start, n - 1);
      var before := Item(Str(PrintInt(start + n - 1)), None);
      OneIncr(data[key := before], key, start + n - 1);
      PutTwice(data, key, before, Item(Str(PrintInt(start + n)), None));
    }
  }

  lemma PutTwice(data: Data, key: Key, a: Item, b: Item)
    ensures data[key := a][key := b] == data[key := b]
  {
  }

  /** At the maximum it refuses and stays. */
  lemma IncrStopsAtMaximum(data: Data, key: Key)
    requires key in data && data[key].value == Str(PrintInt(I64_MAX))
    ensures IncrOp(data, key) == (data, Failure(TooLarge))
  {
    hide PrintInt, ParseI64, Print;
    ParsePrintInt(I64_MAX);
    assert data[key := data[key]] == data;
  }

  // ----- Lists

  function Reversed(s: seq<Bytes>): (r: seq<Bytes>)
    ensures |r| == |s|
  {
    seq(|s|, i requires 0 <= i < |s| => s[|s| - 1 - i])
  }

  /** The values of an LPUSH come out last one first. */
  lemma {:induction false} PushedFrontIs(items: seq<Bytes>, values: seq<Bytes>)
    ensures PushedFront(items, values) == Reversed(values) + items
  {
    if values != [] {
      var n := |values| - 1;
      PushedFrontIs(items, values[..n]);
      assert Reversed(values) == [values[n]] + Reversed(values[..n]);
    }
  }

  ghost predicate HoldsList(data: Data, key: Key) {
    key in data ==> data[key].value.List?
  }

  /** First in, first out: after RPUSH, popping as many as there are gives the old items, then the pushed ones in order. */
  lemma RpushThenLpop(data: Data, key: Key, values: seq<Bytes>)
    requires HoldsList(data, key) && ItemsOf(data, key) + values != []
    ensures var all := ItemsOf(data, key) + values;
            var (pushed, reply) := RpushOp(data, key, values);
            var (popped, out) := LpopOp(pushed, key, Some(|all|));
            reply == Reply(Int(|all|)) && out == Reply(Items(all)) && ItemsOf(popped, key) == []
  {
    var all := ItemsOf(data, key) + values;
    assert all[..|all|] == all;
  }

  /** Last in, first out: LPUSH and then LPOP of as many gives the values back in reverse and the list as it was. */
  lemma LpushThenLpop(data: Data, key: Key, values: seq<Bytes>)
    requires HoldsList(data, key) && values != []
    ensures var (pushed, reply) := LpushOp(data, key, values);
            var (popped, out) := LpopOp(pushed, key, Some(|values|));
            && reply == Reply(Int(|values| + |ItemsOf(data, key)|))
            && out == Reply(Items(Reversed(values)))
            && ItemsOf(popped, key) == ItemsOf(data, key)
            && popped - {key} == data - {key}
            && (key in data ==> popped == data)
  {
    var items := ItemsOf(data, key);
    PushedFrontIs(items, values);
    assert (Reversed(values) + items)[..|values|] == Reversed(values) && (Reversed(values) + items)[|values|..] == items;
    hide PushedFront, Reversed;
  }

  /** What an LPOP returns. */
  function Taken(out: Output): seq<Bytes> {
    match out
    case Reply(Items(items)) => items
    case Reply(Bulk(Some(item))) => [item]
    case _ => []
  }

  /** Popping loses nothing: what is returned, followed by what is left, is what there was. */
  lemma LpopSplits(data: Data, key: Key, count: Option<nat>)
    ensures var (data', out) := LpopOp(data, key, count);
            && Taken(out) + ItemsOf(data', key) == ItemsOf(data, key)
            && (out.Reply? ==> |Taken(out)| == Min(if count.Some? then count.value else 1, |ItemsOf(data, key)|))
            && data'.Keys == data.Keys && data' - {key} == data - {key}
  {
    var items := ItemsOf(data, key);
    if count.Some? {
      assert items[..Min(count.value, |items|)] + items[Min(count.value, |items|)..] == items;
    } else if items != [] {
      assert [items[0]] + items[1..] == items;
    }
    var (data', _) := LpopOp(data, key, count);
    assert data' - {key} == data - {key};
  }

  /** Two LPOPs in a row leave and return what one of the two counts together does. */
  lemma LpopAdds(data: Data, key: Key, m: nat, n: nat)
    ensures var (first, out1) := LpopOp(data, key, Some(m));
            var (second, out2) := LpopOp(first, key, Some(n));
            var (both, out) := LpopOp(data, key, Some(m + n));
            second == both && Taken(out1) + Taken(out2) == Taken(out)
  {
    if key in data && data[key].value.List? {
      var items := data[key].value.items;
      var k := Min(m, |items|);
      var rest := items[k..];
      var j := Min(n, |rest|);
      assert rest[..j] == items[k..k + j] && rest[j..] == items[k + j..];
      assert items[..k] + items[k..k + j] == items[..k + j];
    }
  }

  // ----- Refusals

  /** A command refused for the type of its key, or for what it holds, leaves every key as it was. */
  lemma WrongTypeChangesNothing(data: Data, cmd: Cmd, now: nat)
    requires IsDataCmd(cmd) && DataOp(data, cmd, now).1.Failure?
    requires DataOp(data, cmd, now).1.error in {WrongType, NotAnInteger, TooLarge}
    ensures DataOp(data, cmd, now).0 == data
  {
    ParsePrintInt(0);
    hide Print, ParseI64, PrintInt, Write, New, Combine, PushedFront;
  }
}
