/** BLPOP and the lists over whole runs: nobody is overtaken and no item is lost. */
module ListRuns {
  import opened Base
  import opened Commands
  import opened Registry
  import opened RegistryInvariant
  import opened Store
  import opened Handler
  import opened Blocking
  import opened Sweeps
  import opened StreamSweeps
  import opened Runs

  // ----- What a step does to waiters

  /** No request waits on a list after the step but those that did before and new ones. */
  ghost predicate OnlyNewWaiters(h: Handler, h': Handler) {
    && h.parked <= h'.parked
    && forall t :: t in h'.reg.store && h'.reg.store[t].ListReq? ==>
         (t in h.reg.store && h.reg.store[t] == h'.reg.store[t]) || t !in h.parked
  }

  lemma OnlyNewTwice(a: Handler, b: Handler, c: Handler)
    requires OnlyNewWaiters(a, b) && OnlyNewWaiters(b, c)
    ensures OnlyNewWaiters(a, c)
  {
    assert forall t :: t in a.parked ==> t in b.parked;
  }

  /** No waiter comes at all. */
  ghost predicate NoNewWaiter(store: Requests, store': Requests) {
    forall t :: t in store' && store'[t].ListReq? ==> t in store && store[t] == store'[t]
  }

  lemma {:induction false} RemovedAllWaiters(r: Reg, ts: seq<Ts>)
    ensures NoNewWaiter(r.store, RemovedAll(r, ts).store)
  {
    if ts != [] {
      RemovedAllWaiters(r, ts[..|ts| - 1]);
    }
  }

  lemma {:induction false} CountedWaiters(store: Requests, waits: map<Client, Ts>, clients: seq<Client>, offset: int)
    ensures NoNewWaiter(store, CountAll(store, waits, clients, offset).store)
  {
    if clients != [] {
      CountedWaiters(store, waits, clients[..|clients| - 1], offset);
    }
  }

  lemma AckWaiters(h: Handler, slave: Client, offset: int)
    ensures OnlyNewWaiters(h, AckOp(h, slave, offset).0)
  {
    var clients := if slave in h.reg.acks then h.reg.acks[slave] else [];
    var c := CountAll(h.reg.store, h.reg.waits, clients, offset);
    CountedWaiters(h.reg.store, h.reg.waits, clients, offset);
    RemovedAllWaiters(h.reg.(store := c.store, acks := DebtsPaid(h.reg.acks, slave, c.acked)), TimestampsOf(h.reg.waits, c.served));
    hide RemovedAll, CountAll;
  }

  lemma ParkWaiters(h: Handler, t: Ts, e: RequestEntry)
    requires t !in h.parked
    ensures OnlyNewWaiters(h, Park(h, t, e))
  {
    hide FreeSlot, ListsWith, AcksWith;
  }

  lemma SameWaiters(h: Handler, h': Handler)
    requires h'.reg.store == h.reg.store && h'.parked == h.parked
    ensures OnlyNewWaiters(h, h')
  {
  }

  lemma BlpopWaiters(h: Handler, key: Key, timeoutMs: Option<nat>, client: Client, env: Env)
    requires Valid(h) && CmdEnabled(h, Blpop(key, timeoutMs), client, env)
    ensures OnlyNewWaiters(h, BlpopOp(h, key, timeoutMs, client, env).0)
  {
    BlpopParks(h, key, timeoutMs, client, env);
    hide Valid, BlpopOp, Park, OnlyNewWaiters;
    if Parks(h, Blpop(key, timeoutMs), env) {
      ParkWaiters(h, env.now, ListReq(client, key, DeadlineAfter(env.now, timeoutMs)));
    } else {
      SameWaiters(h, h);
    }
  }

  lemma XreadWaiters(h: Handler, count: Option<nat>, blockMs: Option<nat>, cursors: seq<Cursor>, client: Client, env: Env)
    requires CmdEnabled(h, Xread(count, blockMs, cursors), client, env)
    ensures OnlyNewWaiters(h, XreadOp(h, count, blockMs, cursors, client, env).0)
  {
    var h' := XreadOp(h, count, blockMs, cursors, client, env).0;
    hide OnlyNewWaiters, Park, ReadPages, Resolve, NoDup;
    SameWaiters(h, h);
    if Parks(h, Xread(count, blockMs, cursors), env) {
      var deadline := DeadlineAfter(env.now, if blockMs == Some(0) then None else blockMs);
      ParkWaiters(h, env.now, StreamReq(client, count, Resolve(h.data, cursors), deadline));
    }
  }

  lemma WaitWaiters(h: Handler, required: nat, timeoutMs: Option<nat>, client: Client, env: Env)
    requires CmdEnabled(h, Wait(required, timeoutMs), client, env)
    ensures OnlyNewWaiters(h, WaitOp(h, required, timeoutMs, client, env).0)
  {
    if Parks(h, Wait(required, timeoutMs), env) {
      var asked := h.(queue := h.queue + ToAll(env.slaves, GetAck));
      ParkWaiters(asked, env.now, WaitReq(client, required, 0, DeadlineAfter(env.now, timeoutMs), env.offset, env.slaves));
    }
    hide Park, ToAll, NoDup;
  }

  lemma RegWaiters(h: Handler, txns: map<Client, seq<Queued>>, watches: map<Key, map<Client, bool>>)
    ensures OnlyNewWaiters(h, h) && OnlyNewWaiters(h, h.(reg := h.reg.(txns := txns, watches := watches)))
  {
  }

  lemma DispatchWaiters(h: Handler, cmd: Cmd, client: Client, env: Env)
    requires Valid(h) && CmdEnabled(h, cmd, client, env) && (cmd.Exec? ==> client !in h.reg.txns)
    ensures OnlyNewWaiters(h, Dispatch(h, cmd, client, env).0)
  {
    hide Valid, OnlyNewWaiters, DataOp, BlpopOp, XreadOp, WaitOp, AckOp, Watched, Unwatched, NoDup, CmdEnabled;
    SameWaiters(h, h);
    if IsDataCmd(cmd) {
      SameWaiters(h, h.(data := DataOp(h.data, cmd, env.now).0));
    } else {
      match cmd
      case Blpop(key, timeoutMs) => BlpopWaiters(h, key, timeoutMs, client, env);
      case Xread(count, blockMs, cursors) => XreadWaiters(h, count, blockMs, cursors, client, env);
      case Wait(required, timeoutMs) => WaitWaiters(h, required, timeoutMs, client, env);
      case ReplconfAck(offset) => AckWaiters(h, client, offset);
      case Multi => RegWaiters(h, h.reg.txns[client := []], h.reg.watches);
      case Discard => RegWaiters(h, h.reg.txns - {client}, Unwatched(h.reg.watches, client));
      case Watch(keys) => RegWaiters(h, h.reg.txns, Watched(h.reg.watches, keys, client));
      case Unwatch => RegWaiters(h, h.reg.txns, Unwatched(h.reg.watches, client));
      case Exec =>
      case ReplconfGetAck(_) =>
    }
  }

  lemma ExecuteWaiters(h: Handler, cmd: Cmd, buf: Bytes, client: Client, env: Env)
    requires Valid(h) && CmdEnabled(h, cmd, client, env) && (cmd.Exec? ==> client !in h.reg.txns)
    ensures OnlyNewWaiters(h, Execute(h, cmd, buf, client, env).0)
  {
    var marked := Marked(h, cmd);
    MarkedValid(h, cmd);
    MarkedEnabled(h, cmd, client, env);
    SameWaiters(h, marked);
    ExecuteParts(h, cmd, buf, client, env);
    hide Valid, OnlyNewWaiters, Dispatch, Settle, CmdEnabled, Execute, Dirtied;
    DispatchWaiters(marked, cmd, client, env);
    var (dispatched, out) := Dispatch(marked, cmd, client, env);
    OnlyNewTwice(h, marked, dispatched);
    SettleWaiters(h, dispatched, cmd, buf, env);
  }

  lemma SettleWaiters(h: Handler, h': Handler, cmd: Cmd, buf: Bytes, env: Env)
    requires OnlyNewWaiters(h, h')
    ensures OnlyNewWaiters(h, Settle(h', cmd, buf, env))
  {
    hide ToAll;
  }

  lemma {:induction false} BatchWaiters(h: Handler, queue: seq<Queued>, client: Client, envs: seq<Env>)
    requires Valid(h) && NoExec(queue) && |envs| == |queue| && BatchEnabled(h, queue, client, envs)
    ensures OnlyNewWaiters(h, ExecuteAll(h, queue, client, envs).0)
  {
    hide Valid, Execute, OnlyNewWaiters, CmdEnabled;
    if queue == [] {
      SameWaiters(h, h);
    } else {
      var n := |queue| - 1;
      BatchWaiters(h, queue[..n], client, envs[..n]);
      BatchValid(h, queue[..n], client, envs[..n]);
      var before := ExecuteAll(h, queue[..n], client, envs[..n]).0;
      ExecuteWaiters(before, queue[n].cmd, queue[n].buf, client, envs[n]);
      OnlyNewTwice(h, before, ExecuteAll(h, queue, client, envs).0);
    }
  }

  lemma ExecWaiters(h: Handler, client: Client, envs: seq<Env>)
    requires Valid(h) && client in h.reg.txns && NoExec(h.reg.txns[client]) && |envs| == |h.reg.txns[client]|
    requires !IsAnyDirty(h.reg.watches, client) ==> BatchEnabled(Runs.Drained(h, client), h.reg.txns[client], client, envs)
    ensures OnlyNewWaiters(h, ExecOp(h, client, envs).0)
  {
    var drained := Runs.Drained(h, client);
    assert Valid(drained) by { SameValid(h, drained); }
    hide Valid, OnlyNewWaiters, ExecuteAll, BatchEnabled, IsAnyDirty, Unwatched;
    SameWaiters(h, EndTxn(h, client));
    if !IsAnyDirty(h.reg.watches, client) {
      BatchWaiters(drained, h.reg.txns[client], client, envs);
      var h' := ExecuteAll(drained, h.reg.txns[client], client, envs).0;
      SameWaiters(h, drained);
      SameWaiters(h', EndTxn(h', client));
      OnlyNewTwice(h, drained, h');
      OnlyNewTwice(h, h', EndTxn(h', client));
    }
  }

  lemma RequestWaiters(h: Handler, client: Client, cmd: Option<Cmd>, buf: Bytes, envs: seq<Env>)
    requires Valid(h) && Enabled(h, Request(client, cmd, buf, envs)) && (client in h.reg.txns ==> NoExec(h.reg.txns[client]))
    ensures OnlyNewWaiters(h, Handle(h, cmd, buf, client, envs).0)
  {
    hide Valid, OnlyNewWaiters, Execute, ExecOp, EndTxn, Enqueue, BatchEnabled, CmdEnabled, NoExec;
    SameWaiters(h, h);
    if cmd.Some? {
      if client !in h.reg.txns {
        ExecuteWaiters(h, cmd.value, buf, client, envs[0]);
      } else if cmd.value.Exec? {
        ExecWaiters(h, client, envs);
      } else {
        EndedWaiters(h, client);
        QueuedWaiters(h, client, cmd.value, buf);
      }
    }
  }

  lemma EndedWaiters(h: Handler, client: Client)
    ensures OnlyNewWaiters(h, EndTxn(h, client))
  {
  }

  lemma QueuedWaiters(h: Handler, client: Client, cmd: Cmd, buf: Bytes)
    requires client in h.reg.txns
    ensures OnlyNewWaiters(h, Enqueue(h, client, cmd, buf))
  {
  }

  // ----- Sweeps and the timer

  lemma ListSweepWaiters(h: Handler, keys: seq<Key>)
    requires Valid(h) && Enumerates(keys, h.reg.lists.Keys)
    ensures OnlyNewWaiters(h, SweepLists(h, keys))
  {
    if h.flagList {
      var ts := ChosenWaiters(h.reg, h.data, keys);
      hide NoDup, DealtOnKey, SameButItems, OnKey;
      SweepDeals(h, keys);
      RemovedAllWaiters(h.reg, ts);
      hide Valid, Released, ChosenWaiters, RemovedAll;
    }
  }

  lemma StreamSweepWaiters(h: Handler, readers: seq<Ts>)
    requires Valid(h) && NoDup(readers)
    ensures OnlyNewWaiters(h, SweepStreams(h, readers))
  {
    if h.flagStream {
      ReadersReleased(h, readers);
      RemovedAllWaiters(h.reg, ChosenReaders(h.reg, h.data, readers));
      hide Valid, Released, ChosenReaders, RemovedAll;
    }
  }

  lemma ExpireWaiters(h: Handler, d: nat)
    requires d in h.reg.deadlines
    ensures OnlyNewWaiters(h, Expire(h, d))
  {
    hide ListsWithout, AcksWithout;
  }

  lemma EventWaiters(h: Handler, e: Event)
    requires Valid(h) && Enabled(h, e)
    ensures OnlyNewWaiters(h, Apply(h, e))
  {
    hide OnlyNewWaiters, Handle, SweepLists, SweepStreams, Expire, BatchEnabled, CmdEnabled;
    match e
    case Request(client, cmd, buf, envs) =>
      assert client in h.reg.txns ==> AllQueueable(h.reg.txns[client]);
      hide Valid;
      RequestWaiters(h, client, cmd, buf, envs);
    case ListSweep(keys) => ListSweepWaiters(h, keys);
    case StreamSweep(readers) => StreamSweepWaiters(h, readers);
    case Timer(d) => ExpireWaiters(h, d);
  }

  // ----- Nobody is overtaken

  /** The requests served on a key by the list sweeps of the run, in the order they were served. */
  ghost function ServedOn(events: seq<Event>, key: Key): seq<Ts>
    requires Possible(events)
  {
    if events == [] then []
    else
      var n := |events| - 1;
      ServedOn(events[..n], key) + ServedBy(After(events[..n]), events[n], key)
  }

  function ServedBy(h: Handler, e: Event, key: Key): seq<Ts> {
    if e.ListSweep? && h.flagList then Waiting(h.reg.lists, key)[..Matches(h, key)] else []
  }

  /** `x` parked before `y`. */
  ghost predicate Before(parked: seq<Ts>, x: Ts, y: Ts) {
    exists i, j :: 0 <= i < j < |parked| && parked[i] == x && parked[j] == y
  }

  ghost predicate InOrder(s: seq<Ts>, parked: seq<Ts>) {
    forall i, j :: 0 <= i < j < |s| ==> Before(parked, s[i], s[j])
  }

  lemma BeforeLonger(parked: seq<Ts>, parked': seq<Ts>, x: Ts, y: Ts)
    requires parked <= parked'
    ensures Before(parked, x, y) ==> Before(parked', x, y)
    ensures x in parked && y in parked' && y !in parked ==> Before(parked', x, y)
  {
    if Before(parked, x, y) {
      var i, j :| 0 <= i < j < |parked| && parked[i] == x && parked[j] == y;
      assert parked'[i] == x && parked'[j] == y;
    }
    if x in parked && y in parked' && y !in parked {
      var i :| 0 <= i < |parked| && parked[i] == x;
      var j :| 0 <= j < |parked'| && parked'[j] == y;
      assert parked'[i] == x && parked'[..|parked|] == parked;
      assert forall k :: 0 <= k < |parked| ==> parked'[k] in parked;
    }
  }

  /** A queue is in order of arrival. */
  lemma {:induction false} QueueInOrder(store: Requests, parked: seq<Ts>, key: Key)
    ensures InOrder(QueueOf(store, parked, key), parked)
    ensures forall t :: t in QueueOf(store, parked, key) ==> t in parked
  {
    if parked != [] {
      var n := |parked| - 1;
      var front, last := parked[..n], parked[n];
      QueueInOrder(store, front, key);
      var queue := QueueOf(store, front, key);
      forall i, j | 0 <= i < j < |QueueOf(store, parked, key)|
        ensures Before(parked, QueueOf(store, parked, key)[i], QueueOf(store, parked, key)[j])
      {
        BeforeLonger(front, parked, queue[i], QueueOf(store, parked, key)[j]);
        if j == |queue| {
          assert queue[i] in front;
          var k :| 0 <= k < n && front[k] == queue[i];
          assert parked[k] == queue[i] && parked[n] == last;
        }
      }
    }
  }

  /** Those served so far and those waiting, one after the other, are in order of arrival. */
  ghost predicate NotOvertaken(served: seq<Ts>, waiting: seq<Ts>, parked: seq<Ts>) {
    InOrder(served + waiting, parked) && forall t :: t in served + waiting ==> t in parked
  }

  lemma WaitingInOrder(h: Handler, key: Key)
    requires Valid(h)
    ensures NotOvertaken([], Waiting(h.reg.lists, key), h.parked)
    ensures forall t :: t in Waiting(h.reg.lists, key) ==> WaitsOn(h.reg.store, t, key)
    ensures forall t :: WaitsOn(h.reg.store, t, key) ==> t in Waiting(h.reg.lists, key)
  {
    assert QueueOf(h.reg.store, h.parked, key) == Waiting(h.reg.lists, key);
    QueueInOrder(h.reg.store, h.parked, key);
    QueueMembers(h.reg.store, h.parked, key);
    assert [] + Waiting(h.reg.lists, key) == Waiting(h.reg.lists, key);
    hide QueueOf, InOrder, Consistent;
  }

  /** A waiting list that lost some and gained new ones stays behind those served. */
  lemma StillNotOvertaken(served: seq<Ts>, waiting: seq<Ts>, parked: seq<Ts>, waiting': seq<Ts>, parked': seq<Ts>)
    requires NotOvertaken(served, waiting, parked) && NotOvertaken([], waiting', parked') && parked <= parked'
    requires forall t :: t in waiting' ==> t in waiting || t !in parked
    ensures NotOvertaken(served, waiting', parked')
  {
    hide Before;
    var n := |served|;
    assert [] + waiting' == waiting';
    forall t | t in served + waiting'
      ensures t in parked'
    {
      assert t in served ==> t in served + waiting;
    }
    forall i, j | 0 <= i < j < |served + waiting'|
      ensures Before(parked', (served + waiting')[i], (served + waiting')[j])
    {
      var x, y := (served + waiting')[i], (served + waiting')[j];
      BeforeLonger(parked, parked', x, y);
      if j < n {
        assert x == (served + waiting)[i] && y == (served + waiting)[j];
      } else if i < n {
        assert x == (served + waiting)[i] && x in served + waiting;
        if y in waiting {
          var k :| 0 <= k < |waiting| && waiting[k] == y;
          assert (served + waiting)[n + k] == y;
        }
      } else {
        assert x == waiting'[i - n] && y == waiting'[j - n];
      }
    }
  }

  lemma EventFifo(h: Handler, e: Event, served: seq<Ts>, key: Key)
    requires Valid(h) && Enabled(h, e) && NotOvertaken(served, Waiting(h.reg.lists, key), h.parked)
    ensures var h' := Apply(h, e); NotOvertaken(served + ServedBy(h, e, key), Waiting(h'.reg.lists, key), h'.parked)
  {
    if e.ListSweep? && h.flagList {
      SweepFifo(h, e.keys, served, key);
      hide Valid, NotOvertaken, SweepLists;
    } else {
      var h' := Apply(h, e);
      EventWaiters(h, e);
      WaitingInOrder(h', key);
      OnlyNewOnKey(h, h', key);
      assert served + [] == served && h.parked <= h'.parked;
      assert ServedBy(h, e, key) == [];
      hide *;
      StillNotOvertaken(served, Waiting(h.reg.lists, key), h.parked, Waiting(h'.reg.lists, key), h'.parked);
    }
  }

  lemma SweepFifo(h: Handler, keys: seq<Key>, served: seq<Ts>, key: Key)
    requires Valid(h) && Enumerates(keys, h.reg.lists.Keys) && h.flagList
    requires NotOvertaken(served, Waiting(h.reg.lists, key), h.parked)
    ensures var h' := SweepLists(h, keys);
            NotOvertaken(served + Waiting(h.reg.lists, key)[..Matches(h, key)], Waiting(h'.reg.lists, key), h'.parked)
  {
    SweepMatches(h, keys);
    assert MatchedOnKey(h, SweepLists(h, keys), key);
    SweepParksNobody(h, keys);
    hide Valid, SweepLists, NotOvertaken, Enumerates, PopsOf, SameButItems;
    SameOvertaken(served, Waiting(h.reg.lists, key), Matches(h, key), h.parked);
  }

  lemma SameOvertaken(served: seq<Ts>, waiting: seq<Ts>, n: nat, parked: seq<Ts>)
    requires n <= |waiting| && NotOvertaken(served, waiting, parked)
    ensures NotOvertaken(served + waiting[..n], waiting[n..], parked)
  {
    assert served + waiting[..n] + waiting[n..] == served + waiting;
  }

  lemma SweepParksNobody(h: Handler, keys: seq<Key>)
    requires Valid(h) && Enumerates(keys, h.reg.lists.Keys)
    ensures SweepLists(h, keys).parked == h.parked
  {
    hide NoDup, DealtOnKey, SameButItems, OnKey;
    SweepDeals(h, keys);
    hide Valid, Released, ChosenWaiters, RemovedAll;
  }

  lemma OnlyNewOnKey(h: Handler, h': Handler, key: Key)
    requires Valid(h) && Valid(h') && OnlyNewWaiters(h, h')
    ensures forall t :: t in Waiting(h'.reg.lists, key) ==> t in Waiting(h.reg.lists, key) || t !in h.parked
  {
    WaitingInOrder(h, key);
    WaitingInOrder(h', key);
    hide Valid, Waiting, NotOvertaken;
  }

  /**
   * First come, first served over every run: the BLPOPs served on a key, in the order they were served, and then those
   * still waiting on it are in the order in which they parked. So nobody is served while an earlier one waits.
   */
  lemma {:induction false} NobodyIsOvertaken(events: seq<Event>, key: Key)
    requires Possible(events)
    ensures var h := After(events); NotOvertaken(ServedOn(events, key), Waiting(h.reg.lists, key), h.parked)
  {
    if events == [] {
      assert Waiting(START.reg.lists, key) == [];
    } else {
      var n := |events| - 1;
      NobodyIsOvertaken(events[..n], key);
      hide Valid, Enabled, NotOvertaken, ServedBy, Waiting;
      EventFifo(After(events[..n]), events[n], ServedOn(events[..n], key), key);
    }
  }
}
