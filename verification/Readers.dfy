/** Blocked XREAD over whole runs: what a released reader gets was not there when it parked. */
module Readers {
  import opened Base
  import opened Streams
  import opened Commands
  import opened Registry
  import opened Store
  import opened Handler
  import opened Blocking
  import opened Sweeps
  import opened StreamSweeps
  import opened RegistryInvariant
  import opened Runs

  // ----- Streams stay sorted

  ghost predicate AllSorted(data: Data) {
    forall key: Key :: Sorted(EntriesOf(data, key))
  }

  lemma DataOpSorted(data: Data, cmd: Cmd, now: nat)
    requires IsDataCmd(cmd) && AllSorted(data)
    ensures AllSorted(DataOp(data, cmd, now).0)
  {
    var data' := DataOp(data, cmd, now).0;
    forall key: Key
      ensures Sorted(EntriesOf(data', key))
    {
      assert Sorted(EntriesOf(data, key));
      if cmd.Xadd? && key == cmd.key {
        XaddSorted(EntriesOf(data, key), cmd.id, cmd.fields, now);
      } else {
        EntriesKept(data, cmd, now, key);
      }
    }
  }

  lemma XaddSorted(entries: seq<Entry>, arg: IdArg, fields: seq<Bytes>, now: nat)
    requires Sorted(entries)
    ensures var grown := Streams.Xadd(entries, arg, fields, now); grown.Some? ==> Sorted(grown.value)
  {
    var id := NewId(Last(entries), arg, now);
    if id.Some? {
      InsertedSorted(entries, Entry(id.value, fields));
    }
  }

  /** Only XADD puts entries in a stream; others keep the stream or drop it. */
  lemma EntriesKept(data: Data, cmd: Cmd, now: nat, key: Key)
    requires IsDataCmd(cmd) && !(cmd.Xadd? && key == cmd.key)
    ensures var entries := EntriesOf(DataOp(data, cmd, now).0, key); entries == EntriesOf(data, key) || entries == []
  {
    hide NewId, WithEntry, Bitmaps.Write, Bitmaps.New, Bitmaps.Combine, Decimal.Print, Decimal.ParseI64, Decimal.PrintInt;
    hide PushedFront, SortedSets.Added, SortedSets.Removed, Bitmaps.BitCount;
  }

  // ----- Readers are behind

  /** Nothing was past any cursor of a parked reader when it parked; readers with COUNT 0 aside. */
  ghost predicate AllBehind(store: map<Ts, RequestEntry>, seen: map<Ts, Data>) {
    forall t :: t in store && store[t].StreamReq? && store[t].count != Some(0) ==> Behind(store[t], seen, t)
  }

  ghost predicate Behind(e: RequestEntry, seen: map<Ts, Data>, t: Ts)
    requires e.StreamReq?
  {
    t in seen && forall c :: c in e.cursors ==> !IsAvailable(seen[t], c)
  }

  ghost predicate ReadersFit(h: Handler) {
    AllSorted(h.data) && AllBehind(h.reg.store, h.seen)
  }

  /** No reader comes, and streams lose entries at most all together. */
  ghost predicate NoNewReader(store: map<Ts, RequestEntry>, store': map<Ts, RequestEntry>) {
    forall t :: t in store' && store'[t].StreamReq? ==> t in store && store'[t] == store[t]
  }

  ghost predicate SameEntries(data: Data, data': Data) {
    forall key: Key :: EntriesOf(data', key) == EntriesOf(data, key)
  }

  lemma KeepsBehind(h: Handler, h': Handler)
    requires ReadersFit(h) && NoNewReader(h.reg.store, h'.reg.store) && h'.seen == h.seen && SameEntries(h.data, h'.data)
    ensures ReadersFit(h')
  {
    hide Behind, EntriesOf, Sorted;
    forall t | t in h'.reg.store && h'.reg.store[t].StreamReq? && h'.reg.store[t].count != Some(0)
      ensures Behind(h'.reg.store[t], h'.seen, t)
    {
      assert Behind(h.reg.store[t], h.seen, t);
    }
  }

  lemma {:induction false} RemovedAllReaders(r: Reg, ts: seq<Ts>)
    ensures NoNewReader(r.store, RemovedAll(r, ts).store)
  {
    if ts != [] {
      RemovedAllReaders(r, ts[..|ts| - 1]);
    }
  }

  lemma {:induction false} CountedReaders(store: map<Ts, RequestEntry>, waits: map<Client, Ts>, clients: seq<Client>, offset: int)
    ensures NoNewReader(store, CountAll(store, waits, clients, offset).store)
  {
    if clients != [] {
      CountedReaders(store, waits, clients[..|clients| - 1], offset);
    }
  }

  lemma AckReaders(h: Handler, slave: Client, offset: int)
    ensures var h' := AckOp(h, slave, offset).0;
            NoNewReader(h.reg.store, h'.reg.store) && h'.seen == h.seen && h'.data == h.data
  {
    var clients := if slave in h.reg.acks then h.reg.acks[slave] else [];
    var c := CountAll(h.reg.store, h.reg.waits, clients, offset);
    CountedReaders(h.reg.store, h.reg.waits, clients, offset);
    RemovedAllReaders(h.reg.(store := c.store, acks := DebtsPaid(h.reg.acks, slave, c.acked)), TimestampsOf(h.reg.waits, c.served));
    hide RemovedAll, CountAll;
  }

  lemma ParkBehind(h: Handler, t: Ts, e: RequestEntry)
    requires ReadersFit(h) && (e.StreamReq? && e.count != Some(0) ==> forall c :: c in e.cursors ==> !IsAvailable(h.data, c))
    ensures ReadersFit(Park(h, t, e))
  {
    hide FreeSlot, ListsWith, AcksWith, Sorted, IsAvailable;
    var h' := Park(h, t, e);
    forall u | u in h'.reg.store && h'.reg.store[u].StreamReq? && h'.reg.store[u].count != Some(0)
      ensures Behind(h'.reg.store[u], h'.seen, u)
    {
      if u != t {
        assert Behind(h.reg.store[u], h.seen, u);
      }
    }
  }

  lemma XreadBehind(h: Handler, count: Option<nat>, blockMs: Option<nat>, cursors: seq<Cursor>, client: Client, env: Env)
    requires ReadersFit(h)
    ensures ReadersFit(XreadOp(h, count, blockMs, cursors, client, env).0)
  {
    var (h', out) := XreadOp(h, count, blockMs, cursors, client, env);
    hide ReadersFit;
    if out == Silent {
      var deadline := DeadlineAfter(env.now, if blockMs == Some(0) then None else blockMs);
      var e := StreamReq(client, count, Resolve(h.data, cursors), deadline);
      assert h' == Park(h, env.now, e);
      ReaderParks(h, count, blockMs, cursors, client, env);
      ParkBehind(h, env.now, e);
    } else {
      assert h' == h;
    }
  }

  lemma DispatchBehind(h: Handler, cmd: Cmd, client: Client, env: Env)
    requires ReadersFit(h) && Valid(h) && (cmd.Exec? ==> client !in h.reg.txns)
    ensures ReadersFit(Dispatch(h, cmd, client, env).0)
  {
    hide Valid, DataOp, XreadOp, AckOp, WaitOp, Watched, Unwatched, BlpopOp, Park, Behind, Sorted, EntriesOf;
    if IsDataCmd(cmd) {
      DataOpSorted(h.data, cmd, env.now);
    } else {
      match cmd
      case Blpop(key, timeoutMs) => BlpopBehind(h, key, timeoutMs, client, env);
      case Xread(count, blockMs, cursors) => XreadBehind(h, count, blockMs, cursors, client, env);
      case Wait(required, timeoutMs) => WaitBehind(h, required, timeoutMs, client, env);
      case ReplconfAck(offset) =>
        AckReaders(h, client, offset);
        KeepsBehind(h, AckOp(h, client, offset).0);
      case _ =>
    }
  }

  lemma BlpopBehind(h: Handler, key: Key, timeoutMs: Option<nat>, client: Client, env: Env)
    requires ReadersFit(h) && Valid(h)
    ensures ReadersFit(BlpopOp(h, key, timeoutMs, client, env).0)
  {
    BlpopParks(h, key, timeoutMs, client, env);
    hide ReadersFit, Valid, BlpopOp;
    ParkBehind(h, env.now, ListReq(client, key, DeadlineAfter(env.now, timeoutMs)));
  }

  lemma WaitBehind(h: Handler, required: nat, timeoutMs: Option<nat>, client: Client, env: Env)
    requires ReadersFit(h)
    ensures ReadersFit(WaitOp(h, required, timeoutMs, client, env).0)
  {
    var asked := h.(queue := h.queue + ToAll(env.slaves, GetAck));
    assert ReadersFit(asked);
    hide ReadersFit;
    ParkBehind(asked, env.now, WaitReq(client, required, 0, DeadlineAfter(env.now, timeoutMs), env.offset, env.slaves));
  }

  lemma ExecuteBehind(h: Handler, cmd: Cmd, buf: Bytes, client: Client, env: Env)
    requires ReadersFit(h) && Valid(h) && (cmd.Exec? ==> client !in h.reg.txns)
    ensures ReadersFit(Execute(h, cmd, buf, client, env).0)
  {
    var marked := Marked(h, cmd);
    assert Valid(marked) by { SameValid(h, marked); }
    hide Valid, Dispatch, Dirtied, AllSorted, AllBehind, ToAll;
    DispatchBehind(marked, cmd, client, env);
  }

  // ----- Every event

  lemma {:induction false} BatchBehind(h: Handler, queue: seq<Queued>, client: Client, envs: seq<Env>)
    requires ReadersFit(h) && Valid(h) && NoExec(queue) && |envs| == |queue| && BatchEnabled(h, queue, client, envs)
    ensures ReadersFit(ExecuteAll(h, queue, client, envs).0)
  {
    if queue != [] {
      hide Valid, Execute, ReadersFit, CmdEnabled;
      var n := |queue| - 1;
      BatchBehind(h, queue[..n], client, envs[..n]);
      BatchValid(h, queue[..n], client, envs[..n]);
      ExecuteBehind(ExecuteAll(h, queue[..n], client, envs[..n]).0, queue[n].cmd, queue[n].buf, client, envs[n]);
    }
  }

  lemma ExecBehind(h: Handler, client: Client, envs: seq<Env>)
    requires ReadersFit(h) && Valid(h) && client in h.reg.txns && NoExec(h.reg.txns[client]) && |envs| == |h.reg.txns[client]|
    requires !IsAnyDirty(h.reg.watches, client) ==> BatchEnabled(Runs.Drained(h, client), h.reg.txns[client], client, envs)
    ensures ReadersFit(ExecOp(h, client, envs).0)
  {
    if !IsAnyDirty(h.reg.watches, client) {
      assert Valid(Runs.Drained(h, client)) by { SameValid(h, Runs.Drained(h, client)); }
      hide Valid;
      BatchBehind(Runs.Drained(h, client), h.reg.txns[client], client, envs);
    }
    hide Valid, AllSorted, AllBehind, ExecuteAll, BatchEnabled, IsAnyDirty, Unwatched;
  }

  lemma InMultiBehind(h: Handler, client: Client, c: Cmd, buf: Bytes, envs: seq<Env>)
    requires ReadersFit(h) && Valid(h) && client in h.reg.txns && NoExec(h.reg.txns[client])
    requires Enabled(h, Request(client, Some(c), buf, envs))
    ensures ReadersFit(Handle(h, Some(c), buf, client, envs).0)
  {
    if c.Exec? {
      hide ReadersFit, Valid, ExecOp, BatchEnabled;
      ExecBehind(h, client, envs);
    } else {
      hide Valid, AllSorted, AllBehind, NoExec, Unwatched;
    }
  }

  lemma RequestBehind(h: Handler, client: Client, cmd: Option<Cmd>, buf: Bytes, envs: seq<Env>)
    requires ReadersFit(h) && Valid(h) && Enabled(h, Request(client, cmd, buf, envs)) && (client in h.reg.txns ==> NoExec(h.reg.txns[client]))
    ensures ReadersFit(Handle(h, cmd, buf, client, envs).0)
  {
    hide Valid, ReadersFit, Execute, BatchEnabled, CmdEnabled, NoExec;
    if cmd.Some? && client in h.reg.txns {
      hide Handle, Enabled;
      InMultiBehind(h, client, cmd.value, buf, envs);
    } else if cmd.Some? {
      ExecuteBehind(h, cmd.value, buf, client, envs[0]);
    }
  }

  lemma {:induction false} CollectedReaders(r: Reg, ts: seq<Ts>)
    ensures NoNewReader(r.store, Collected(r, ts).0.store)
  {
    if ts != [] {
      CollectedReaders(r, ts[..|ts| - 1]);
    }
  }

  lemma {:induction false} TasksBehind(h: Handler, tasks: seq<Task>)
    requires ReadersFit(h)
    ensures ReadersFit(RunTasks(h, tasks))
  {
    if tasks != [] {
      var before, task := RunTasks(h, tasks[..|tasks| - 1]), tasks[|tasks| - 1];
      TasksBehind(h, tasks[..|tasks| - 1]);
      hide ReadersFit, RunListTask, RunStreamTask;
      match task.entry
      case ListReq(_, _, _) => ListTaskBehind(before, task);
      case StreamReq(_, _, _, _) => StreamTaskBehind(before, task);
      case WaitReq(_, _, _, _, _, _) =>
    }
  }

  lemma ListTaskBehind(h: Handler, task: Task)
    requires ReadersFit(h) && task.entry.ListReq?
    ensures ReadersFit(RunListTask(h, task))
  {
    hide ReadersFit, ListsWithout, AcksWithout;
    KeepsBehind(h, RunListTask(h, task));
  }

  lemma StreamTaskBehind(h: Handler, task: Task)
    requires ReadersFit(h) && task.entry.StreamReq?
    ensures ReadersFit(RunStreamTask(h, task))
  {
    hide ReadersFit, ReadPages, ListsWithout, AcksWithout;
    KeepsBehind(h, RunStreamTask(h, task));
  }

  lemma ReleasedBehind(h: Handler, ts: seq<Ts>)
    requires ReadersFit(h)
    ensures ReadersFit(Released(h, ts))
  {
    var (reg, tasks) := Collected(h.reg, ts);
    CollectedReaders(h.reg, ts);
    KeepsBehind(h, h.(reg := reg));
    TasksBehind(h.(reg := reg), tasks);
  }

  lemma EventBehind(h: Handler, e: Event)
    requires ReadersFit(h) && Valid(h) && Enabled(h, e)
    ensures ReadersFit(Apply(h, e))
  {
    match e
    case Request(client, cmd, buf, envs) =>
      assert client in h.reg.txns ==> AllQueueable(h.reg.txns[client]);
      hide Valid, Handle, ReadersFit, BatchEnabled, CmdEnabled;
      RequestBehind(h, client, cmd, buf, envs);
    case ListSweep(keys) =>
      ReleasedBehind(h, ChosenWaiters(h.reg, h.data, keys));
      hide Valid, AllSorted, AllBehind, Released;
    case StreamSweep(readers) =>
      ReleasedBehind(h, ChosenReaders(h.reg, h.data, readers));
      hide Valid, AllSorted, AllBehind, Released;
    case Timer(deadline) =>
      hide Valid, ListsWithout, AcksWithout;
      KeepsBehind(h, Expire(h, deadline));
  }

  lemma {:induction false} RunBehind(events: seq<Event>)
    requires Possible(events)
    ensures ReadersFit(Runs.After(events))
  {
    if events != [] {
      var n := |events| - 1;
      RunBehind(events[..n]);
      hide ReadersFit, Enabled, Valid;
      EventBehind(Runs.After(events[..n]), events[n]);
    }
  }

  lemma {:induction false} NothingPast(s: seq<Entry>, id: Id)
    requires Streams.After(s, id) == []
    ensures forall e :: e in s ==> !IdLess(id, e.id)
  {
    if s != [] {
      NothingPast(s[1..], id);
    }
  }

  /** What was past a cursor later was not there when nothing was past it. */
  lemma PageIsNew(before: Data, data: Data, c: Cursor, count: Option<nat>)
    requires !IsAvailable(before, c) && Sorted(EntriesOf(data, c.key))
    ensures forall e :: e in PageOf(data, c, count).1 ==> e in EntriesOf(data, c.key) && e !in EntriesOf(before, c.key)
  {
    NothingPast(EntriesOf(before, c.key), c.id);
    AfterIs(EntriesOf(data, c.key), c.id);
  }

  /**
   * In every run a raised stream sweep sends each released reader with a COUNT other than 0 at least one page, and
   * every entry it sends it was added after the reader parked.
   */
  lemma ReleasedReaderGetsNews(events: seq<Event>, order: seq<Ts>, t: Ts)
    requires Possible(events)
    requires var h := Runs.After(events);
             h.flagStream && Enumerates(order, h.reg.streams) && HasItems(h.reg, h.data, t) && h.reg.store[t].count != Some(0)
    ensures var h := Runs.After(events);
            var e := h.reg.store[t];
            && t in ChosenReaders(h.reg, h.data, order) && t in h.seen
            && PageBody(h.data, e).Pages? && PageBody(h.data, e).pages != []
            && |h.queue| <= |SweepStreams(h, order).queue|
            && Message(e.client, PageBody(h.data, e)) in SweepStreams(h, order).queue[|h.queue|..]
            && forall p, x :: p in PageBody(h.data, e).pages && x in p.1 ==> x !in EntriesOf(h.seen[t], p.0)
  {
    var h := Runs.After(events);
    var e := h.reg.store[t];
    RunBehind(events);
    SweepReleases(h, order);
    ReleasedGetsPages(h.reg, h.data, t);
    assert Behind(e, h.seen, t);
    var ts := ChosenReaders(h.reg, h.data, order);
    SentToReader(h.reg.store, h.data, ts, t);
    hide Valid, SweepStreams, PageBody, IsAvailable;
    var c :| c in e.cursors && IsAvailable(h.data, c);
    assert PageOf(h.data, c, e.count) in PageBody(h.data, e).pages;
    forall p, x | p in PageBody(h.data, e).pages && x in p.1
      ensures x !in EntriesOf(h.seen[t], p.0)
    {
      var c :| c in e.cursors && p == PageOf(h.data, c, e.count);
      PageIsNew(h.seen[t], h.data, c, e.count);
    }
  }

  lemma SentToReader(store: Requests, data: Data, ts: seq<Ts>, t: Ts)
    requires AllReaders(store, ts) && t in ts
    ensures Message(store[t].client, PageBody(data, store[t])) in PageMessages(store, data, ts)
  {
    var i :| 0 <= i < |ts| && ts[i] == t;
    assert PageMessages(store, data, ts)[i] == Message(store[t].client, PageBody(data, store[t]));
  }
}
