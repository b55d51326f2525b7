/** The items of a list over whole runs: what was pushed is what was popped and what is left. */
module ListItems {
  import opened Base
  import opened Commands
  import opened Registry
  import opened Store
  import opened DataLaws
  import opened Handler
  import opened Blocking
  import opened Sweeps
  import opened Runs
  import Replay

  /**
   * What an observer of one key writes down: the values pushed and those popped, each in order, whether a SET or BITOP
   * has overwritten items, and whether all pushes were at the back.
   */
  datatype Ledger = Ledger(pushed: seq<Bytes>, popped: seq<Bytes>, overwritten: bool, backOnly: bool)

  const BLANK: Ledger := Ledger([], [], false, true)

  /** The books balance: as bags always, and in order when all pushes were at the back. */
  ghost predicate Balances(l: Ledger, items: seq<Bytes>) {
    && multiset(l.pushed) == multiset(l.popped) + multiset(items)
    && (l.backOnly ==> l.pushed == l.popped + items)
  }

  // ----- One command

  function PushedBy(cmd: Cmd, out: Output, key: Key): seq<Bytes> {
    match cmd
    case Rpush(k, values) => if k == key && out.Reply? then values else []
    case Lpush(k, values) => if k == key && out.Reply? then values else []
    case _ => []
  }

  function PoppedBy(cmd: Cmd, out: Output, key: Key): seq<Bytes> {
    match cmd
    case Lpop(k, _) => if k == key then Taken(out) else []
    case _ => []
  }

  /** A SET, or a BITOP whose operands are bytes, on a key that holds items. */
  predicate Overwrites(data: Data, cmd: Cmd, key: Key) {
    && ItemsOf(data, key) != []
    && match cmd
       case Set(k, _, _) => k == key
       case Bitop(_, dest, key1, key2) => dest == key && BytesOf(data, key1).Some? && BytesOf(data, key2).Some?
       case _ => false
  }

  function Entered(l: Ledger, data: Data, cmd: Cmd, now: nat, key: Key): Ledger
    requires IsDataCmd(cmd)
  {
    var out := DataOp(data, cmd, now).1;
    Ledger(l.pushed + PushedBy(cmd, out, key),
           l.popped + PoppedBy(cmd, out, key),
           l.overwritten || Overwrites(data, cmd, key),
           l.backOnly && !(cmd.Lpush? && cmd.key == key))
  }

  lemma {:induction false} SameBag(values: seq<Bytes>)
    ensures multiset(Reversed(values)) == multiset(values)
  {
    if values != [] {
      var n := |values| - 1;
      SameBag(values[..n]);
      assert Reversed(values) == [values[n]] + Reversed(values[..n]);
      assert values == values[..n] + [values[n]];
    }
  }

  lemma RpushBalances(l: Ledger, data: Data, cmd: Cmd, now: nat, key: Key)
    requires cmd.Rpush? && cmd.key == key && Balances(l, ItemsOf(data, key))
    ensures Balances(Entered(l, data, cmd, now, key), ItemsOf(DataOp(data, cmd, now).0, key))
  {
    var items := ItemsOf(data, key);
    Regroup(l.popped, items, cmd.values);
    assert l.popped + [] == l.popped && l.pushed + [] == l.pushed;
    RpushItems(data, key, cmd.values);
    BagPushed(l, items, cmd.values);
    hide RpushOp, ItemsOf;
  }

  lemma RpushItems(data: Data, key: Key, values: seq<Bytes>)
    ensures var (data', out) := RpushOp(data, key, values);
            ItemsOf(data', key) == if out.Reply? then ItemsOf(data, key) + values else ItemsOf(data, key)
  {
  }

  lemma BagPushed(l: Ledger, items: seq<Bytes>, values: seq<Bytes>)
    requires multiset(l.pushed) == multiset(l.popped) + multiset(items)
    ensures multiset(l.pushed + values) == multiset(l.popped) + multiset(items + values)
  {
  }

  /** Values more, pushed at the front in any order. */
  lemma BagGrows(l: Ledger, items: seq<Bytes>, values: seq<Bytes>, front: seq<Bytes>)
    requires multiset(l.pushed) == multiset(l.popped) + multiset(items) && multiset(front) == multiset(values)
    ensures multiset(l.pushed + values) == multiset(l.popped) + multiset(front + items)
  {
  }

  lemma LpushBalances(l: Ledger, data: Data, cmd: Cmd, now: nat, key: Key)
    requires cmd.Lpush? && cmd.key == key && Balances(l, ItemsOf(data, key))
    ensures Balances(Entered(l, data, cmd, now, key), ItemsOf(DataOp(data, cmd, now).0, key))
  {
    var items := ItemsOf(data, key);
    PushedFrontIs(items, cmd.values);
    SameBag(cmd.values);
    BagGrows(l, items, cmd.values, Reversed(cmd.values));
    LpushItems(data, key, cmd.values);
    EnteredLpush(l, data, cmd, now, key);
    hide DataOp, Entered, PushedFront, Reversed, ItemsOf;
  }

  lemma EnteredLpush(l: Ledger, data: Data, cmd: Cmd, now: nat, key: Key)
    requires cmd.Lpush? && cmd.key == key
    ensures DataOp(data, cmd, now) == LpushOp(data, key, cmd.values)
    ensures Entered(l, data, cmd, now, key)
         == l.(pushed := if LpushOp(data, key, cmd.values).1.Reply? then l.pushed + cmd.values else l.pushed, backOnly := false)
  {
    hide LpushOp;
    assert l.popped + [] == l.popped && l.pushed + [] == l.pushed;
  }

  lemma LpushItems(data: Data, key: Key, values: seq<Bytes>)
    ensures var (data', out) := LpushOp(data, key, values);
            ItemsOf(data', key) == if out.Reply? then PushedFront(ItemsOf(data, key), values) else ItemsOf(data, key)
  {
    hide PushedFront;
  }

  lemma LpopBalances(l: Ledger, data: Data, cmd: Cmd, now: nat, key: Key)
    requires cmd.Lpop? && cmd.key == key && Balances(l, ItemsOf(data, key))
    ensures Balances(Entered(l, data, cmd, now, key), ItemsOf(DataOp(data, cmd, now).0, key))
  {
    LpopSplits(data, key, cmd.count);
    var (data', out) := LpopOp(data, key, cmd.count);
    hide LpopOp, ItemsOf;
    Regroup(l.popped, Taken(out), ItemsOf(data', key));
    assert l.pushed + [] == l.pushed;
  }

  /** No other command changes the items of a list, but for overwriting them all. */
  lemma OthersKeepItems(data: Data, cmd: Cmd, now: nat, key: Key)
    requires IsDataCmd(cmd) && !((cmd.Rpush? || cmd.Lpush? || cmd.Lpop?) && cmd.key == key)
    ensures ItemsOf(DataOp(data, cmd, now).0, key) == if Overwrites(data, cmd, key) then [] else ItemsOf(data, key)
  {
    hide Streams.NewId, Streams.WithEntry, Bitmaps.Write, Bitmaps.New, Bitmaps.Combine, Decimal.Print, Decimal.ParseI64, Decimal.PrintInt;
    hide PushedFront, SortedSets.Added, SortedSets.Removed, Bitmaps.BitCount;
  }

  lemma NothingEntered(l: Ledger, data: Data, cmd: Cmd, now: nat, key: Key)
    requires IsDataCmd(cmd) && !((cmd.Rpush? || cmd.Lpush? || cmd.Lpop?) && cmd.key == key)
    ensures Entered(l, data, cmd, now, key) == l.(overwritten := l.overwritten || Overwrites(data, cmd, key))
  {
    hide DataOp, Overwrites;
    assert l.popped + [] == l.popped && l.pushed + [] == l.pushed;
  }

  lemma LostItems(l: Ledger, items: seq<Bytes>)
    requires items != [] && Balances(l, items)
    ensures !Balances(l.(overwritten := true), [])
  {
    assert (multiset(l.popped) + multiset(items))[items[0]] > multiset(l.popped)[items[0]];
    assert multiset([] + l.popped) == multiset(l.popped) + multiset(items) - multiset(items);
  }

  /** Exactly the commands that do not overwrite items keep balanced books balanced. */
  lemma CommandBalances(l: Ledger, data: Data, cmd: Cmd, now: nat, key: Key)
    requires IsDataCmd(cmd) && Balances(l, ItemsOf(data, key))
    ensures Balances(Entered(l, data, cmd, now, key), ItemsOf(DataOp(data, cmd, now).0, key)) <==> !Overwrites(data, cmd, key)
  {
    hide DataOp;
    if cmd.Rpush? && cmd.key == key {
      RpushBalances(l, data, cmd, now, key);
    } else if cmd.Lpush? && cmd.key == key {
      LpushBalances(l, data, cmd, now, key);
    } else if cmd.Lpop? && cmd.key == key {
      LpopBalances(l, data, cmd, now, key);
    } else {
      OthersKeepItems(data, cmd, now, key);
      NothingEntered(l, data, cmd, now, key);
      if Overwrites(data, cmd, key) {
        LostItems(l, ItemsOf(data, key));
      }
    }
  }

  // ----- The books of a run

  function EnteredCmd(l: Ledger, h: Handler, cmd: Cmd, env: Env, key: Key): Ledger {
    if IsDataCmd(cmd) then Entered(l, h.data, cmd, env.now, key) else l
  }

  function EnteredAll(l: Ledger, h: Handler, queue: seq<Queued>, client: Client, envs: seq<Env>, key: Key): Ledger
    requires NoExec(queue) && |envs| == |queue|
  {
    if queue == [] then l
    else
      var n := |queue| - 1;
      EnteredCmd(EnteredAll(l, h, queue[..n], client, envs[..n], key), ExecuteAll(h, queue[..n], client, envs[..n]).0,
                 queue[n].cmd, envs[n], key)
  }

  function EnteredRequest(l: Ledger, h: Handler, cmd: Option<Cmd>, client: Client, envs: seq<Env>, key: Key): Ledger
    requires |envs| == EnvsNeeded(h, cmd, client) && (client in h.reg.txns ==> NoExec(h.reg.txns[client]))
  {
    match cmd
    case None => l
    case Some(c) =>
      if client !in h.reg.txns then EnteredCmd(l, h, c, envs[0], key)
      else if c.Exec? && !IsAnyDirty(h.reg.watches, client) then
        EnteredAll(l, Runs.Drained(h, client), h.reg.txns[client], client, envs, key)
      else l
  }

  ghost function EnteredEvent(l: Ledger, h: Handler, e: Event, key: Key): Ledger
    requires Valid(h) && Enabled(h, e)
  {
    match e
    case Request(client, cmd, _, envs) =>
      assert client in h.reg.txns ==> AllQueueable(h.reg.txns[client]);
      EnteredRequest(l, h, cmd, client, envs, key)
    case ListSweep(_) => if h.flagList then l.(popped := l.popped + ItemsOf(h.data, key)[..Matches(h, key)]) else l
    case _ => l
  }

  ghost function LedgerOf(events: seq<Event>, key: Key): Ledger
    requires Possible(events)
  {
    if events == [] then BLANK
    else
      var n := |events| - 1;
      EnteredEvent(LedgerOf(events[..n], key), After(events[..n]), events[n], key)
  }

  /** The books balance unless items have been overwritten. */
  ghost predicate Kept(l: Ledger, h: Handler, key: Key) {
    l.overwritten || Balances(l, ItemsOf(h.data, key))
  }

  lemma ExecuteKept(l: Ledger, h: Handler, cmd: Cmd, buf: Bytes, client: Client, env: Env, key: Key)
    requires Valid(h) && (cmd.Exec? ==> client !in h.reg.txns) && Kept(l, h, key)
    ensures Kept(EnteredCmd(l, h, cmd, env, key), Execute(h, cmd, buf, client, env).0, key)
  {
    Replay.ExecuteActs(h, cmd, buf, client, env);
    hide Valid, Execute, DataOp, Balances, ItemsOf, Overwrites, PushedBy, PoppedBy;
    if IsDataCmd(cmd) && !l.overwritten {
      CommandBalances(l, h.data, cmd, env.now, key);
    }
  }

  lemma {:induction false} BatchKept(l: Ledger, h: Handler, queue: seq<Queued>, client: Client, envs: seq<Env>, key: Key)
    requires Valid(h) && NoExec(queue) && |envs| == |queue| && BatchEnabled(h, queue, client, envs) && Kept(l, h, key)
    ensures Kept(EnteredAll(l, h, queue, client, envs, key), ExecuteAll(h, queue, client, envs).0, key)
  {
    if queue != [] {
      hide Valid, Execute, Kept, CmdEnabled, EnteredCmd;
      var n := |queue| - 1;
      BatchKept(l, h, queue[..n], client, envs[..n], key);
      BatchValid(h, queue[..n], client, envs[..n]);
      ExecuteKept(EnteredAll(l, h, queue[..n], client, envs[..n], key), ExecuteAll(h, queue[..n], client, envs[..n]).0,
                  queue[n].cmd, queue[n].buf, client, envs[n], key);
    }
  }

  lemma ExecKept(l: Ledger, h: Handler, client: Client, envs: seq<Env>, key: Key)
    requires Valid(h) && client in h.reg.txns && NoExec(h.reg.txns[client]) && |envs| == |h.reg.txns[client]| && Kept(l, h, key)
    requires !IsAnyDirty(h.reg.watches, client) && BatchEnabled(Runs.Drained(h, client), h.reg.txns[client], client, envs)
    ensures Kept(EnteredAll(l, Runs.Drained(h, client), h.reg.txns[client], client, envs, key), ExecOp(h, client, envs).0, key)
  {
    var drained := Runs.Drained(h, client);
    assert Valid(drained) by { SameValid(h, drained); }
    hide Valid, Balances, ItemsOf, ExecuteAll, EnteredAll, BatchEnabled, IsAnyDirty, Unwatched;
    BatchKept(l, drained, h.reg.txns[client], client, envs, key);
  }

  lemma RequestKept(l: Ledger, h: Handler, client: Client, cmd: Option<Cmd>, buf: Bytes, envs: seq<Env>, key: Key)
    requires Valid(h) && Enabled(h, Request(client, cmd, buf, envs)) && (client in h.reg.txns ==> NoExec(h.reg.txns[client]))
    requires Kept(l, h, key)
    ensures Kept(EnteredRequest(l, h, cmd, client, envs, key), Handle(h, cmd, buf, client, envs).0, key)
  {
    hide Valid, Balances, ItemsOf, Execute, ExecOp, EnteredAll, EnteredCmd, BatchEnabled, CmdEnabled, Unwatched, IsAnyDirty, NoExec;
    if cmd.Some? {
      if client !in h.reg.txns {
        ExecuteKept(l, h, cmd.value, buf, client, envs[0], key);
      } else if cmd.value.Exec? {
        if IsAnyDirty(h.reg.watches, client) {
          AbortKeeps(h, client, envs);
        } else {
          ExecKept(l, h, client, envs, key);
        }
      }
    }
  }

  lemma AbortKeeps(h: Handler, client: Client, envs: seq<Env>)
    requires client in h.reg.txns && NoExec(h.reg.txns[client]) && |envs| == |h.reg.txns[client]| && IsAnyDirty(h.reg.watches, client)
    ensures ExecOp(h, client, envs).0.data == h.data
  {
    hide IsAnyDirty, ExecuteAll;
  }

  lemma SweepKept(l: Ledger, h: Handler, keys: seq<Key>, key: Key)
    requires Valid(h) && Enumerates(keys, h.reg.lists.Keys) && Kept(l, h, key)
    ensures Kept(EnteredEvent(l, h, ListSweep(keys), key), SweepLists(h, keys), key)
  {
    EnteredSweep(l, h, keys, key);
    hide EnteredEvent;
    if h.flagList {
      SweptItems(h, keys, key);
      hide Valid, SweepLists, Enumerates, ItemsOf, Matches, Balances;
      if !l.overwritten {
        SplitBalances(l, ItemsOf(h.data, key), Matches(h, key));
      }
    }
  }

  lemma EnteredSweep(l: Ledger, h: Handler, keys: seq<Key>, key: Key)
    requires Valid(h) && Enumerates(keys, h.reg.lists.Keys)
    ensures EnteredEvent(l, h, ListSweep(keys), key)
         == if h.flagList then l.(popped := l.popped + ItemsOf(h.data, key)[..Matches(h, key)]) else l
  {
    hide Valid, ItemsOf;
  }

  lemma SweptItems(h: Handler, keys: seq<Key>, key: Key)
    requires Valid(h) && Enumerates(keys, h.reg.lists.Keys) && h.flagList
    ensures ItemsOf(SweepLists(h, keys).data, key) == ItemsOf(h.data, key)[Matches(h, key)..]
  {
    SweepMatches(h, keys);
    assert MatchedOnKey(h, SweepLists(h, keys), key);
    hide Valid, SweepLists, PopsOf, Enumerates, SameButItems;
  }

  lemma SplitBalances(l: Ledger, items: seq<Bytes>, n: nat)
    requires n <= |items| && Balances(l, items)
    ensures Balances(l.(popped := l.popped + items[..n]), items[n..])
  {
    assert items[..n] + items[n..] == items;
    Regroup(l.popped, items[..n], items[n..]);
  }

  lemma EventKept(l: Ledger, h: Handler, e: Event, key: Key)
    requires Valid(h) && Enabled(h, e) && Kept(l, h, key)
    ensures Kept(EnteredEvent(l, h, e, key), Apply(h, e), key)
  {
    hide Kept, Handle, SweepLists, SweepStreams, Expire, BatchEnabled, CmdEnabled, EnteredRequest;
    match e
    case Request(client, cmd, buf, envs) =>
      assert client in h.reg.txns ==> AllQueueable(h.reg.txns[client]);
      hide Valid;
      RequestKept(l, h, client, cmd, buf, envs, key);
    case ListSweep(keys) => SweepKept(l, h, keys, key);
    case StreamSweep(readers) =>
      Replay.StreamSweepKeepsLog(h, readers);
      SameDataKept(l, h, Apply(h, e), key);
    case Timer(d) =>
      SameDataKept(l, h, Apply(h, e), key) by { ExpireKeepsData(h, d); }
  }

  lemma SameDataKept(l: Ledger, h: Handler, h': Handler, key: Key)
    requires h'.data == h.data && Kept(l, h, key)
    ensures Kept(l, h', key)
  {
  }

  /**
   * No item is lost or made up over any run: as long as no SET or BITOP overwrites items of the key, the values pushed
   * to it are those popped, by LPOP or for a BLPOP, and those left; and in this very order if all pushes were RPUSH.
   */
  lemma {:induction false} NoItemIsLost(events: seq<Event>, key: Key)
    requires Possible(events)
    ensures Kept(LedgerOf(events, key), After(events), key)
  {
    if events != [] {
      hide Valid, Enabled, Kept, EnteredEvent;
      var n := |events| - 1;
      NoItemIsLost(events[..n], key);
      EventKept(LedgerOf(events[..n], key), After(events[..n]), events[n], key);
    } else {
      assert ItemsOf(START.data, key) == [];
    }
  }
}
