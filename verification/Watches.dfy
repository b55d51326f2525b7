/** EXEC against WATCH: what an abort means over whole runs. */
module Watches {
  import opened Base
  import opened Commands
  import opened Registry
  import opened Store
  import opened SilentWrites
  import opened Handler
  import opened Blocking
  import opened Sweeps
  import opened StreamSweeps
  import opened Runs

  /** A key changed without a mark when `after` commands had been executed. */
  datatype SilentWrite = SilentWrite(key: Key, after: nat)

  /**
   * What an observer of the run writes down: every command executed, every silent write, and for each watched key of
   * each client how many commands there were, and what the key held, when it began to be watched.
   */
  datatype History = History(executed: seq<Cmd>, silent: seq<SilentWrite>,
                             since: map<(Client, Key), nat>, held: map<(Client, Key), Option<Item>>)

  const NOTHING: History := History([], [], map[], map[])

  function Pairs(client: Client, keys: seq<Key>): set<(Client, Key)> {
    set k | k in keys :: (client, k)
  }

  function Dropped(hist: History, client: Client): History {
    History(hist.executed, hist.silent,
            map p | p in hist.since && p.0 != client :: hist.since[p],
            map p | p in hist.held && p.0 != client :: hist.held[p])
  }

  /** A command is executed with `data` in store. */
  function Note(hist: History, data: Data, cmd: Cmd, client: Client): History {
    var executed := hist.executed + [cmd];
    match cmd
    case Watch(keys) =>
      History(executed, hist.silent,
              (map p | p in Pairs(client, keys) :: |executed|) + hist.since,
              (map p | p in Pairs(client, keys) :: Lookup(data, p.1)) + hist.held)
    case Unwatch => Dropped(hist.(executed := executed), client)
    case _ => hist.(executed := executed, silent := hist.silent + Silently(SilentKey(data, cmd), |executed|))
  }

  function Silently(key: Option<Key>, after: nat): seq<SilentWrite> {
    if key.Some? then [SilentWrite(key.value, after)] else []
  }

  /** The keys of a list sweep on which somebody is served. */
  function NotePops(hist: History, h: Handler, keys: seq<Key>): History {
    if keys == [] then hist
    else
      var key := keys[|keys| - 1];
      var before := NotePops(hist, h, keys[..|keys| - 1]);
      if Matches(h, key) > 0 then before.(silent := before.silent + [SilentWrite(key, |hist.executed|)]) else before
  }

  function NoteAll(hist: History, h: Handler, queue: seq<Queued>, client: Client, envs: seq<Env>): History
    requires NoExec(queue) && |envs| == |queue|
  {
    if queue == [] then hist
    else
      var n := |queue| - 1;
      Note(NoteAll(hist, h, queue[..n], client, envs[..n]), ExecuteAll(h, queue[..n], client, envs[..n]).0.data, queue[n].cmd, client)
  }

  function NoteRequest(hist: History, h: Handler, cmd: Option<Cmd>, client: Client, envs: seq<Env>): History
    requires |envs| == EnvsNeeded(h, cmd, client)
    requires client in h.reg.txns ==> NoExec(h.reg.txns[client])
  {
    match cmd
    case None => hist
    case Some(c) =>
      if client !in h.reg.txns then Note(hist, h.data, c, client)
      else if c.Exec? then
        if IsAnyDirty(h.reg.watches, client) then Dropped(hist, client)
        else Dropped(NoteAll(hist, Drained(h, client), h.reg.txns[client], client, envs), client)
      else if c.Discard? then Dropped(hist, client)
      else hist
  }

  ghost function NoteEvent(hist: History, h: Handler, e: Event): History
    requires Valid(h) && Enabled(h, e)
  {
    match e
    case Request(client, cmd, _, envs) =>
      assert client in h.reg.txns ==> AllQueueable(h.reg.txns[client]);
      NoteRequest(hist, h, cmd, client, envs)
    case ListSweep(keys) => if h.flagList then NotePops(hist, h, keys) else hist
    case _ => hist
  }

  /** The history of a run. */
  ghost function HistoryOf(events: seq<Event>): History
    requires Possible(events)
  {
    if events == [] then NOTHING
    else
      var n := |events| - 1;
      NoteEvent(HistoryOf(events[..n]), After(events[..n]), events[n])
  }

  // ----- Dirty marks tell the truth

  predicate IsWatching(watches: map<Key, map<Client, bool>>, client: Client, key: Key) {
    key in watches && client in watches[key]
  }

  /** A tracked write to `key` was executed from position `from` on, whether or not it succeeded. */
  ghost predicate WrittenSince(executed: seq<Cmd>, from: nat, key: Key) {
    exists i :: from <= i < |executed| && DirtyKey(executed[i]) == Some(key)
  }

  /** `key` was changed silently from then on. */
  ghost predicate SilentSince(silent: seq<SilentWrite>, from: nat, key: Key) {
    exists i :: 0 <= i < |silent| && silent[i].key == key && from <= silent[i].after
  }

  /** What the mark of one client on one key says. */
  ghost predicate TrueAt(watches: map<Key, map<Client, bool>>, hist: History, c: Client, k: Key) {
    && (IsWatching(watches, c, k) <==> (c, k) in hist.since)
    && ((c, k) in hist.since <==> (c, k) in hist.held)
    && ((c, k) in hist.since ==>
          && hist.since[(c, k)] <= |hist.executed|
          && (watches[k][c] <==> WrittenSince(hist.executed, hist.since[(c, k)], k)))
  }

  /** A key watched, not marked and not silently changed since holds what it held when it began to be watched. */
  ghost predicate KeptAt(data: Data, watches: map<Key, map<Client, bool>>, hist: History, c: Client, k: Key) {
    IsWatching(watches, c, k) && !watches[k][c] && (c, k) in hist.since && !SilentSince(hist.silent, hist.since[(c, k)], k) ==>
      (c, k) in hist.held && Lookup(data, k) == hist.held[(c, k)]
  }

  lemma WrittenByLast(executed: seq<Cmd>, cmd: Cmd, from: nat, key: Key)
    requires from <= |executed|
    ensures WrittenSince(executed + [cmd], from, key) <==> WrittenSince(executed, from, key) || DirtyKey(cmd) == Some(key)
  {
    var longer := executed + [cmd];
    if WrittenSince(executed, from, key) {
      var i :| from <= i < |executed| && DirtyKey(executed[i]) == Some(key);
      assert longer[i] == executed[i];
    }
    if DirtyKey(cmd) == Some(key) {
      assert longer[|executed|] == cmd;
    }
  }

  function WatchesAfter(watches: map<Key, map<Client, bool>>, cmd: Cmd, client: Client): map<Key, map<Client, bool>> {
    match cmd
    case Watch(keys) => Watched(watches, keys, client)
    case Unwatch => Unwatched(watches, client)
    case _ => watches
  }

  lemma {:induction false} WatchedIs(watches: map<Key, map<Client, bool>>, keys: seq<Key>, client: Client, c: Client, k: Key)
    ensures var watches' := Watched(watches, keys, client);
            && (IsWatching(watches', c, k) <==> IsWatching(watches, c, k) || (c == client && k in keys))
            && (IsWatching(watches', c, k) ==> watches'[k][c] == (IsWatching(watches, c, k) && watches[k][c]))
  {
    if keys != [] {
      WatchedIs(watches, keys[..|keys| - 1], client, c, k);
      assert k in keys <==> k in keys[..|keys| - 1] || k == keys[|keys| - 1];
    }
  }

  /** Marking the written key makes the mark true for the command just executed. */
  lemma MarkTrue(watches: map<Key, map<Client, bool>>, hist: History, cmd: Cmd, c: Client, k: Key)
    requires TrueAt(watches, hist, c, k)
    ensures TrueAt(Dirtied(watches, cmd), hist.(executed := hist.executed + [cmd]), c, k)
  {
    if (c, k) in hist.since {
      WrittenByLast(hist.executed, cmd, hist.since[(c, k)], k);
    }
  }

  lemma NoneWritten(executed: seq<Cmd>, key: Key)
    ensures !WrittenSince(executed, |executed|, key)
  {
  }

  lemma StepTrue(watches: map<Key, map<Client, bool>>, hist: History, data: Data, cmd: Cmd, client: Client, c: Client, k: Key)
    requires TrueAt(watches, hist, c, k)
    ensures TrueAt(WatchesAfter(Dirtied(watches, cmd), cmd, client), Note(hist, data, cmd, client), c, k)
  {
    MarkTrue(watches, hist, cmd, c, k);
    if cmd.Watch? {
      WatchedIs(Dirtied(watches, cmd), cmd.keys, client, c, k);
      NoneWritten(hist.executed + [cmd], k);
    }
    hide Dirtied, Watched, WrittenSince;
  }

  lemma SilentByLast(silent: seq<SilentWrite>, more: seq<SilentWrite>, from: nat, key: Key)
    ensures SilentSince(silent + more, from, key) <==> SilentSince(silent, from, key) || SilentSince(more, from, key)
  {
    var all := silent + more;
    if SilentSince(silent, from, key) {
      var i :| 0 <= i < |silent| && silent[i].key == key && from <= silent[i].after;
      assert all[i] == silent[i];
    }
    if SilentSince(more, from, key) {
      var i :| 0 <= i < |more| && more[i].key == key && from <= more[i].after;
      assert all[|silent| + i] == more[i];
    }
  }

  lemma OneSilent(key: Option<Key>, after: nat, from: nat, k: Key)
    ensures SilentSince(Silently(key, after), from, k) <==> key == Some(k) && from <= after
  {
    if key.Some? {
      assert Silently(key, after)[0] == SilentWrite(key.value, after);
    }
  }

  lemma StepKept(watches: map<Key, map<Client, bool>>, hist: History, data: Data, data': Data, cmd: Cmd, client: Client, c: Client, k: Key)
    requires TrueAt(watches, hist, c, k) && KeptAt(data, watches, hist, c, k)
    requires DirtyKey(cmd) != Some(k) && SilentKey(data, cmd) != Some(k) ==> Lookup(data', k) == Lookup(data, k)
    ensures KeptAt(data', WatchesAfter(Dirtied(watches, cmd), cmd, client), Note(hist, data, cmd, client), c, k)
  {
    if cmd.Watch? {
      WatchedIs(Dirtied(watches, cmd), cmd.keys, client, c, k);
    } else if (c, k) in hist.since {
      var after := |hist.executed + [cmd]|;
      SilentByLast(hist.silent, Silently(SilentKey(data, cmd), after), hist.since[(c, k)], k);
      OneSilent(SilentKey(data, cmd), after, hist.since[(c, k)], k);
    }
    hide Watched, WrittenSince, SilentSince, Lookup;
  }

  // ----- One command

  lemma DispatchData(h: Handler, cmd: Cmd, client: Client, env: Env, key: Key)
    requires !cmd.Exec? && AllCovered(h.data) && DirtyKey(cmd) != Some(key) && SilentKey(h.data, cmd) != Some(key)
    ensures Lookup(Dispatch(Marked(h, cmd), cmd, client, env).0.data, key) == Lookup(h.data, key)
  {
    if IsDataCmd(cmd) {
      UnmarkedIsSilent(h.data, cmd, env.now, key);
    }
    hide DataOp, Dirtied, AllCovered, SilentKey;
  }

  lemma DispatchCovered(h: Handler, cmd: Cmd, client: Client, env: Env)
    requires !cmd.Exec? && AllCovered(h.data)
    ensures AllCovered(Dispatch(Marked(h, cmd), cmd, client, env).0.data)
  {
    hide Covered;
    if IsDataCmd(cmd) {
      DataOpCovered(h.data, cmd, env.now);
    } else if cmd.Blpop? && cmd.key in h.data {
      ListsCovered(h.data[cmd.key], ItemsOf(h.data, cmd.key)[Min(1, |ItemsOf(h.data, cmd.key)|)..]);
    }
    hide DataOp, Dirtied, ReadPages, Resolve, ToAll, Watched, Unwatched, AckOp;
  }

  lemma {:induction false} RemovedAllWatches(r: Reg, ts: seq<Ts>)
    ensures RemovedAll(r, ts).watches == r.watches && RemovedAll(r, ts).txns == r.txns
  {
    if ts != [] {
      RemovedAllWatches(r, ts[..|ts| - 1]);
    }
  }

  lemma AckKeepsWatches(h: Handler, slave: Client, offset: int)
    ensures var h' := AckOp(h, slave, offset).0; h'.reg.watches == h.reg.watches && h'.reg.txns == h.reg.txns
  {
    var clients := if slave in h.reg.acks then h.reg.acks[slave] else [];
    var c := CountAll(h.reg.store, h.reg.waits, clients, offset);
    RemovedAllWatches(h.reg.(store := c.store, acks := DebtsPaid(h.reg.acks, slave, c.acked)), TimestampsOf(h.reg.waits, c.served));
  }

  lemma DispatchWatches(h: Handler, cmd: Cmd, client: Client, env: Env)
    requires !cmd.Exec? && (cmd.Discard? ==> client !in h.reg.txns)
    ensures Dispatch(h, cmd, client, env).0.reg.watches == WatchesAfter(h.reg.watches, cmd, client)
  {
    hide Watched, Unwatched, DataOp, AckOp, BlpopOp, XreadOp, WaitOp;
    if IsDataCmd(cmd) {
      assert Dispatch(h, cmd, client, env).0 == h.(data := DataOp(h.data, cmd, env.now).0);
    } else if cmd.Blpop? || cmd.Xread? || cmd.Wait? {
      BlockingKeepsWatches(h, cmd, client, env);
    } else if cmd.ReplconfAck? {
      AckKeepsWatches(h, client, cmd.ackOffset);
    }
  }

  lemma BlockingKeepsWatches(h: Handler, cmd: Cmd, client: Client, env: Env)
    requires cmd.Blpop? || cmd.Xread? || cmd.Wait?
    ensures Dispatch(h, cmd, client, env).0.reg.watches == h.reg.watches
  {
    hide ReadPages, Resolve, ToAll, FreeSlot, ListsWith, AcksWith, DataOp, AckOp, Watched, Unwatched, MultiOp, DiscardOp;
  }

  /** The marks are true, and keys neither marked nor silently changed are as they were. */
  ghost predicate MarksTell(data: Data, watches: map<Key, map<Client, bool>>, hist: History) {
    && AllCovered(data)
    && (forall c: Client, k: Key :: TrueAt(watches, hist, c, k))
    && (forall c: Client, k: Key :: KeptAt(data, watches, hist, c, k))
  }

  lemma ExecuteWatches(h: Handler, cmd: Cmd, buf: Bytes, client: Client, env: Env)
    requires !cmd.Exec? && (cmd.Discard? ==> client !in h.reg.txns)
    ensures var h' := Execute(h, cmd, buf, client, env).0;
            && h'.reg.watches == WatchesAfter(Dirtied(h.reg.watches, cmd), cmd, client)
            && h'.data == Dispatch(Marked(h, cmd), cmd, client, env).0.data
  {
    hide Dispatch, Dirtied, WatchesAfter, Settle;
    DispatchWatches(Marked(h, cmd), cmd, client, env);
    SettleKeeps(Dispatch(Marked(h, cmd), cmd, client, env).0, cmd, buf, env);
  }

  lemma ExecuteGood(h: Handler, hist: History, cmd: Cmd, buf: Bytes, client: Client, env: Env)
    requires MarksTell(h.data, h.reg.watches, hist)
    requires !cmd.Exec? && (cmd.Discard? ==> client !in h.reg.txns)
    ensures var h' := Execute(h, cmd, buf, client, env).0;
            MarksTell(h'.data, h'.reg.watches, Note(hist, h.data, cmd, client))
  {
    var h' := Execute(h, cmd, buf, client, env).0;
    ExecuteWatches(h, cmd, buf, client, env);
    DispatchCovered(h, cmd, client, env);
    hide Execute, Dispatch, WatchesAfter, Dirtied, Note, TrueAt, KeptAt, AllCovered, SilentKey, Lookup;
    forall c: Client, k: Key
      ensures TrueAt(h'.reg.watches, Note(hist, h.data, cmd, client), c, k)
      ensures KeptAt(h'.data, h'.reg.watches, Note(hist, h.data, cmd, client), c, k)
    {
      StepTrue(h.reg.watches, hist, h.data, cmd, client, c, k);
      if DirtyKey(cmd) != Some(k) && SilentKey(h.data, cmd) != Some(k) {
        DispatchData(h, cmd, client, env, k);
      }
      StepKept(h.reg.watches, hist, h.data, h'.data, cmd, client, c, k);
    }
  }

  // ----- Every other event

  lemma DropGood(data: Data, watches: map<Key, map<Client, bool>>, hist: History, client: Client)
    requires MarksTell(data, watches, hist)
    ensures MarksTell(data, Unwatched(watches, client), Dropped(hist, client))
  {
    forall c: Client, k: Key
      ensures TrueAt(Unwatched(watches, client), Dropped(hist, client), c, k)
      ensures KeptAt(data, Unwatched(watches, client), Dropped(hist, client), c, k)
    {
      assert TrueAt(watches, hist, c, k);
      assert KeptAt(data, watches, hist, c, k);
    }
    hide TrueAt, KeptAt;
  }

  lemma {:induction false} BatchGood(h: Handler, hist: History, queue: seq<Queued>, client: Client, envs: seq<Env>)
    requires AllQueueable(queue) && NoExec(queue) && |envs| == |queue|
    requires MarksTell(h.data, h.reg.watches, hist)
    ensures var h' := ExecuteAll(h, queue, client, envs).0;
            MarksTell(h'.data, h'.reg.watches, NoteAll(hist, h, queue, client, envs))
  {
    if queue != [] {
      var n := |queue| - 1;
      BatchGood(h, hist, queue[..n], client, envs[..n]);
      assert Queueable(queue[n].cmd);
      hide MarksTell, Execute, Note;
      ExecuteGood(ExecuteAll(h, queue[..n], client, envs[..n]).0, NoteAll(hist, h, queue[..n], client, envs[..n]),
                  queue[n].cmd, queue[n].buf, client, envs[n]);
    }
  }

  lemma ExecGood(h: Handler, hist: History, client: Client, envs: seq<Env>)
    requires client in h.reg.txns && AllQueueable(h.reg.txns[client]) && NoExec(h.reg.txns[client]) && |envs| == |h.reg.txns[client]|
    requires MarksTell(h.data, h.reg.watches, hist)
    ensures var h' := ExecOp(h, client, envs).0;
            MarksTell(h'.data, h'.reg.watches, NoteRequest(hist, h, Some(Exec), client, envs))
  {
    if IsAnyDirty(h.reg.watches, client) {
      DropGood(h.data, h.reg.watches, hist, client);
    } else {
      var queue := h.reg.txns[client];
      BatchGood(Drained(h, client), hist, queue, client, envs);
      var h' := ExecuteAll(Drained(h, client), queue, client, envs).0;
      DropGood(h'.data, h'.reg.watches, NoteAll(hist, Drained(h, client), queue, client, envs), client);
    }
    hide MarksTell, Unwatched, Dropped, ExecuteAll, NoteAll, IsAnyDirty;
  }

  /** A request outside of MULTI. */
  lemma AloneGood(h: Handler, hist: History, cmd: Cmd, buf: Bytes, client: Client, env: Env)
    requires client !in h.reg.txns && MarksTell(h.data, h.reg.watches, hist)
    ensures var h' := Execute(h, cmd, buf, client, env).0;
            MarksTell(h'.data, h'.reg.watches, Note(hist, h.data, cmd, client))
  {
    hide MarksTell, Execute, Note;
    if cmd.Exec? {
      LoneExec(h, hist, buf, client, env);
    } else {
      ExecuteGood(h, hist, cmd, buf, client, env);
    }
  }

  /** A request inside MULTI. */
  lemma InMultiGood(h: Handler, hist: History, c: Cmd, buf: Bytes, client: Client, envs: seq<Env>)
    requires client in h.reg.txns && AllQueueable(h.reg.txns[client]) && NoExec(h.reg.txns[client])
    requires |envs| == EnvsNeeded(h, Some(c), client)
    requires MarksTell(h.data, h.reg.watches, hist)
    ensures var h' := Handle(h, Some(c), buf, client, envs).0;
            MarksTell(h'.data, h'.reg.watches, NoteRequest(hist, h, Some(c), client, envs))
  {
    hide MarksTell, ExecOp, Dropped, Unwatched, NoteAll, IsAnyDirty, NoExec, AllQueueable;
    if c.Exec? {
      ExecGood(h, hist, client, envs);
    } else if c.Discard? {
      DropGood(h.data, h.reg.watches, hist, client);
    }
  }

  lemma RequestGood(h: Handler, hist: History, cmd: Option<Cmd>, buf: Bytes, client: Client, envs: seq<Env>)
    requires |envs| == EnvsNeeded(h, cmd, client)
    requires client in h.reg.txns ==> AllQueueable(h.reg.txns[client]) && NoExec(h.reg.txns[client])
    requires MarksTell(h.data, h.reg.watches, hist)
    ensures var h' := Handle(h, cmd, buf, client, envs).0;
            MarksTell(h'.data, h'.reg.watches, NoteRequest(hist, h, cmd, client, envs))
  {
    hide MarksTell, Execute, Note, NoExec, AllQueueable;
    if cmd.Some? && client in h.reg.txns {
      hide Handle, NoteRequest;
      InMultiGood(h, hist, cmd.value, buf, client, envs);
    } else if cmd.Some? {
      AloneGood(h, hist, cmd.value, buf, client, envs[0]);
    }
  }

  /** An EXEC without a MULTI is executed and fails. */
  lemma LoneExec(h: Handler, hist: History, buf: Bytes, client: Client, env: Env)
    requires client !in h.reg.txns && MarksTell(h.data, h.reg.watches, hist)
    ensures var h' := Execute(h, Exec, buf, client, env).0;
            MarksTell(h'.data, h'.reg.watches, Note(hist, h.data, Exec, client))
  {
    forall c: Client, k: Key
      ensures TrueAt(h.reg.watches, Note(hist, h.data, Exec, client), c, k)
      ensures KeptAt(h.data, h.reg.watches, Note(hist, h.data, Exec, client), c, k)
    {
      StepTrue(h.reg.watches, hist, h.data, Exec, client, c, k);
      StepKept(h.reg.watches, hist, h.data, h.data, Exec, client, c, k);
    }
    hide TrueAt, KeptAt, Note, AllCovered;
  }

  /** A sweep changes the item of a key exactly when it serves somebody there; it marks nobody. */
  lemma SweepKeepsKey(h: Handler, order: seq<Key>, key: Key)
    requires Valid(h) && Enumerates(order, h.reg.lists.Keys)
    ensures var h' := SweepLists(h, order);
            && h'.reg.watches == h.reg.watches
            && (Lookup(h'.data, key) == Lookup(h.data, key) <==> !h.flagList || Matches(h, key) == 0)
  {
    if h.flagList {
      SweepKeepsWatches(h, order);
      SweepMatches(h, order);
      var h' := SweepLists(h, order);
      assert MatchedOnKey(h, h', key);
      hide Valid, SweepLists, PopsOf;
      assert |ItemsOf(h'.data, key)| == |ItemsOf(h.data, key)| - Matches(h, key);
      if Matches(h, key) == 0 {
        assert ItemsOf(h.data, key)[0..] == ItemsOf(h.data, key);
        SameItem(h.data, h'.data, key);
      }
    }
  }

  lemma SameItem(data: Data, data': Data, key: Key)
    requires SameButItems(data, data') && ItemsOf(data', key) == ItemsOf(data, key)
    ensures Lookup(data', key) == Lookup(data, key)
  {
  }

  lemma SweepKeepsWatches(h: Handler, order: seq<Key>)
    requires Valid(h) && Enumerates(order, h.reg.lists.Keys) && h.flagList
    ensures SweepLists(h, order).reg.watches == h.reg.watches
  {
    hide NoDup, DealtOnKey, SameButItems, OnKey;
    SweepDeals(h, order);
    RemovedAllWatches(h.reg, ChosenWaiters(h.reg, h.data, order));
    hide Valid, Released, RemovedAll, ChosenWaiters;
  }

  lemma StreamSweepKeeps(h: Handler, order: seq<Ts>)
    requires Valid(h) && NoDup(order)
    ensures SweepStreams(h, order).data == h.data && SweepStreams(h, order).reg.watches == h.reg.watches
  {
    if h.flagStream {
      ReadersReleased(h, order);
      RemovedAllWatches(h.reg, ChosenReaders(h.reg, h.data, order));
      hide Valid, Released, RemovedAll, ChosenReaders;
    }
  }

  lemma {:induction false} PopsNoted(hist: History, h: Handler, keys: seq<Key>, from: nat, key: Key)
    ensures var noted := NotePops(hist, h, keys);
            && noted == hist.(silent := noted.silent)
            && (SilentSince(noted.silent, from, key)
            <==> SilentSince(hist.silent, from, key) || (key in keys && Matches(h, key) > 0 && from <= |hist.executed|))
  {
    if keys != [] {
      var n := |keys| - 1;
      PopsNoted(hist, h, keys[..n], from, key);
      var more := [SilentWrite(keys[n], |hist.executed|)];
      SilentByLast(NotePops(hist, h, keys[..n]).silent, more, from, key);
      OneSilent(Some(keys[n]), |hist.executed|, from, key);
      hide SilentSince, Matches;
      assert key in keys <==> key in keys[..n] || key == keys[n];
    }
  }

  lemma SweepCovered(h: Handler, order: seq<Key>)
    requires Valid(h) && Enumerates(order, h.reg.lists.Keys) && AllCovered(h.data)
    ensures AllCovered(SweepLists(h, order).data)
  {
    hide Covered;
    if h.flagList {
      SweepMatches(h, order);
      hide Valid, SweepLists, ItemsOf, MatchedOnKey;
      var data' := SweepLists(h, order).data;
      forall key | key in data'
        ensures Covered(data'[key].value)
      {
        assert Covered(h.data[key].value);
        ListsCovered(h.data[key], ItemsOf(data', key));
      }
    }
  }

  lemma ListsCovered(item: Item, items: seq<Bytes>)
    requires Covered(item.value)
    ensures Covered(item.(value := List(items)).value)
  {
  }

  lemma SweepGood(h: Handler, hist: History, order: seq<Key>)
    requires Valid(h) && Enumerates(order, h.reg.lists.Keys) && MarksTell(h.data, h.reg.watches, hist)
    ensures var h' := SweepLists(h, order);
            MarksTell(h'.data, h'.reg.watches, if h.flagList then NotePops(hist, h, order) else hist)
  {
    var h' := SweepLists(h, order);
    SweepKeepsKey(h, order, []);
    SweepCovered(h, order);
    if h.flagList {
      forall c: Client, k: Key
        ensures TrueAt(h'.reg.watches, NotePops(hist, h, order), c, k)
        ensures KeptAt(h'.data, h'.reg.watches, NotePops(hist, h, order), c, k)
      {
        PopsKept(h, hist, order, c, k);
      }
    }
    hide Valid, SweepLists, TrueAt, KeptAt, NotePops, Enumerates, AllCovered;
  }

  lemma PopsKept(h: Handler, hist: History, order: seq<Key>, c: Client, k: Key)
    requires Valid(h) && Enumerates(order, h.reg.lists.Keys) && h.flagList
    requires TrueAt(h.reg.watches, hist, c, k) && KeptAt(h.data, h.reg.watches, hist, c, k)
    ensures var h', hist' := SweepLists(h, order), NotePops(hist, h, order);
            TrueAt(h'.reg.watches, hist', c, k) && KeptAt(h'.data, h'.reg.watches, hist', c, k)
  {
    SweepKeepsKey(h, order, k);
    PopsNoted(hist, h, order, if (c, k) in hist.since then hist.since[(c, k)] else 0, k);
    assert Matches(h, k) > 0 ==> k in order;
    hide Valid, SweepLists, NotePops, SilentSince, WrittenSince, Enumerates, Matches, Lookup;
  }

  lemma EventGood(h: Handler, hist: History, e: Event)
    requires Valid(h) && Enabled(h, e)
    requires MarksTell(h.data, h.reg.watches, hist)
    ensures var h' := Apply(h, e); MarksTell(h'.data, h'.reg.watches, NoteEvent(hist, h, e))
  {
    match e
    case Request(client, cmd, buf, envs) =>
      assert client in h.reg.txns ==> AllQueueable(h.reg.txns[client]);
      hide Valid, Handle, MarksTell, BatchEnabled, CmdEnabled, NoteRequest;
      RequestGood(h, hist, cmd, buf, client, envs);
    case ListSweep(keys) =>
      SweepGood(h, hist, keys);
    case StreamSweep(readers) =>
      StreamSweepKeeps(h, readers);
    case Timer(deadline) =>
  }

  // ----- Runs

  lemma {:induction false} RunGood(events: seq<Event>)
    requires Possible(events)
    ensures var h := After(events); MarksTell(h.data, h.reg.watches, HistoryOf(events))
  {
    if events != [] {
      var n := |events| - 1;
      RunGood(events[..n]);
      hide MarksTell, Enabled, NoteEvent;
      EventGood(After(events[..n]), HistoryOf(events[..n]), events[n]);
    }
  }

  /** A key the client watches has been written by a tracked command since. */
  ghost predicate Disturbed(hist: History, client: Client) {
    exists k :: (client, k) in hist.since && WrittenSince(hist.executed, hist.since[(client, k)], k)
  }

  lemma DirtyIsDisturbed(watches: map<Key, map<Client, bool>>, hist: History, client: Client)
    requires forall k: Key :: TrueAt(watches, hist, client, k)
    ensures IsAnyDirty(watches, client) <==> Disturbed(hist, client)
  {
    if IsAnyDirty(watches, client) {
      var k :| k in watches && client in watches[k] && watches[k][client];
      assert TrueAt(watches, hist, client, k);
    }
    if Disturbed(hist, client) {
      var k :| (client, k) in hist.since && WrittenSince(hist.executed, hist.since[(client, k)], k);
      assert TrueAt(watches, hist, client, k);
    }
  }

  /**
   * In every run EXEC aborts exactly when a tracked write to a key the client watches was executed since it began
   * watching it, and an abort changes neither the key space nor the log.
   */
  lemma ExecAbortsIffDisturbed(events: seq<Event>, client: Client, envs: seq<Env>)
    requires Possible(events)
    requires var h := After(events);
             client in h.reg.txns && NoExec(h.reg.txns[client]) && |envs| == |h.reg.txns[client]|
    ensures var h, hist := After(events), HistoryOf(events);
            var (h', out) := ExecOp(h, client, envs);
            && (out == Reply(NullArray) <==> Disturbed(hist, client))
            && (Disturbed(hist, client) ==> h'.data == h.data && h'.log == h.log && h'.queue == h.queue)
  {
    var h := After(events);
    RunGood(events);
    DirtyIsDisturbed(h.reg.watches, HistoryOf(events), client);
    hide Possible, After, HistoryOf, MarksTell, TrueAt, Disturbed, IsAnyDirty, ExecuteAll, Valid;
  }

  /**
   * In every run a watched key that no executed command has marked and nothing has changed silently since the client
   * began watching it holds what it held then. After `ExecAbortsIffDisturbed` an EXEC that goes ahead finds no
   * watched key marked, so each of them is as it was, but for silent writes to that very key since then.
   */
  lemma ExecFindsKeysAsWatched(events: seq<Event>, client: Client, key: Key)
    requires Possible(events)
    requires var hist := HistoryOf(events);
             && (client, key) in hist.since
             && !WrittenSince(hist.executed, hist.since[(client, key)], key)
             && !SilentSince(hist.silent, hist.since[(client, key)], key)
    ensures var h, hist := After(events), HistoryOf(events);
            (client, key) in hist.held && Lookup(h.data, key) == hist.held[(client, key)]
  {
    var h, hist := After(events), HistoryOf(events);
    RunGood(events);
    hide Possible, After, HistoryOf, Valid;
    assert TrueAt(h.reg.watches, hist, client, key) && KeptAt(h.data, h.reg.watches, hist, client, key);
  }

  /** What counts as silent: a ZADD or ZREM marks nobody, and leaves a key alone exactly when it is not its silent key. */
  lemma SortedSetWritesMarkNobody(h: Handler, cmd: Cmd, buf: Bytes, client: Client, env: Env, key: Key)
    requires (cmd.Zadd? || cmd.Zrem?) && AllCovered(h.data)
    ensures var h' := Execute(h, cmd, buf, client, env).0;
            && h'.reg.watches == h.reg.watches
            && (Lookup(h'.data, key) == Lookup(h.data, key) <==> SilentKey(h.data, cmd) != Some(key))
  {
    SilentKeyIsChanged(h.data, cmd, env.now, key);
    ExecuteWatches(h, cmd, buf, client, env);
    hide DataOp, AllCovered, SilentKey, Execute;
  }
}
