/** src/commands/cmd_handler.rs, `CmdHandler`: the object whose methods update the key space, the registry and the queue in place. */
module CmdHandlers {
  import opened Base
  import opened Decimal
  import opened Streams
  import opened Commands
  import opened Registry
  import opened Store
  import opened Handler
  import opened Sweeps
  import Expiry
  import StreamSweeps

  class CmdHandler {
    var data: Data
    const registry: RequestRegistry
    var responseQueue: seq<Message>
    var flagBacklogList: bool
    var flagBacklogStream: bool
    var aof: Bytes
    ghost var parked: seq<Ts>
    ghost var asked: map<Ts, Client>
    ghost var seen: map<Ts, Data>
    ghost var answers: seq<Ts>

    ghost function View(): Handler
      reads this, registry
    {
      Handler(data, registry.View(), responseQueue, flagBacklogList, flagBacklogStream, aof, parked, asked, seen, answers)
    }

    constructor ()
      ensures fresh(registry) && View() == START
    {
      data, responseQueue, flagBacklogList, flagBacklogStream, aof := map[], [], false, false, [];
      parked, asked, seen, answers := [], map[], map[], [];
      registry := new RequestRegistry();
    }

    // ----- Commands on the key space

    /** `entry(key).or_insert(..)`. */
    method EntryOrInsert(key: Key, value: Value) returns (item: Item)
      modifies this`data
      ensures item == OrNew(old(data), key, value) && data == old(data)[key := item]
    {
      if key !in data {
        data := data[key := Item(value, None)];
      }
      item := data[key];
    }

    method CmdSet(key: Key, value: Bytes, expiry: Option<Commands.Expiry>, env: Env) returns (out: Output)
      modifies this`data
      ensures (data, out) == SetOp(old(data), key, value, expiry, env.now)
    {
      data := data[key := Item(Str(value), Deadline(expiry, env.now))];
      out := Reply(Okay);
    }

    method CmdRpush(key: Key, values: seq<Bytes>) returns (out: Output)
      modifies this`data
      ensures (data, out) == RpushOp(old(data), key, values)
    {
      var item := EntryOrInsert(key, List([]));
      if !item.value.List? {
        return Failure(WrongType);
      }
      var items := item.value.items + values;
      data := data[key := item.(value := List(items))];
      assert data == old(data)[key := data[key]];
      out := Reply(Int(|items|));
    }

    method CmdLpush(key: Key, values: seq<Bytes>) returns (out: Output)
      modifies this`data
      ensures (data, out) == LpushOp(old(data), key, values)
    {
      var item := EntryOrInsert(key, List([]));
      if !item.value.List? {
        return Failure(WrongType);
      }
      var items := item.value.items;
      for i := 0 to |values|
        invariant items == PushedFront(item.value.items, values[..i])
      {
        assert values[..i + 1][..i] == values[..i];
        items := [values[i]] + items;
      }
      assert values[..|values|] == values;
      data := data[key := item.(value := List(items))];
      assert data == old(data)[key := data[key]];
      out := Reply(Int(|items|));
    }

    method CmdLpop(key: Key, count: Option<nat>) returns (out: Output)
      modifies this`data
      ensures (data, out) == LpopOp(old(data), key, count)
    {
      if key !in data {
        return Reply(Bulk(None));
      }
      var item := data[key];
      if !item.value.List? {
        return Failure(WrongType);
      }
      var items := item.value.items;
      match count {
        case Some(n) =>
          var taken := Min(n, |items|);
          data := data[key := item.(value := List(items[taken..]))];
          out := Reply(if taken == 0 then NullArray else Items(items[..taken]));
        case None =>
          if items == [] {
            return Reply(Bulk(None));
          }
          data := data[key := item.(value := List(items[1..]))];
          out := Reply(Bulk(Some(items[0])));
      }
    }

    method CmdIncr(key: Key) returns (out: Output)
      modifies this`data
      ensures (data, out) == IncrOp(old(data), key)
    {
      var item := EntryOrInsert(key, Str(Print(0)));
      if !item.value.Str? {
        return Failure(NotAnInteger);
      }
      match ParseI64(item.value.text) {
        case None => return Failure(NotAnInteger);
        case Some(i) =>
          if i >= I64_MAX {
            return Failure(TooLarge);
          }
          data := data[key := item.(value := Str(PrintInt(i + 1)))];
          assert data == old(data)[key := data[key]];
          out := Reply(Int(i + 1));
      }
    }

    method CmdXadd(key: Key, arg: IdArg, fields: seq<Bytes>, env: Env) returns (out: Output)
      modifies this`data
      ensures (data, out) == XaddOp(old(data), key, arg, fields, env.now)
    {
      var item := EntryOrInsert(key, Stream([]));
      if !item.value.Stream? {
        return Failure(WrongType);
      }
      var entries := item.value.entries;
      match NewId(Last(entries), arg, env.now) {
        case None => return Failure(BadId);
        case Some(id) =>
          data := data[key := item.(value := Stream(WithEntry(entries, Entry(id, fields))))];
          assert data == old(data)[key := data[key]];
          out := Reply(NewIdReply(id));
      }
    }

    method CmdSetbit(key: Key, offset: nat, bit: nat) returns (out: Output)
      modifies this`data
      ensures (data, out) == SetbitOp(old(data), key, offset, bit)
    {
      var item := EntryOrInsert(key, Bits(Bitmaps.New(offset + 1)));
      if !item.value.Bits? {
        return Failure(WrongType);
      }
      var bits := item.value.bits;
      var oldBit := if Bitmaps.BitAt(bits, offset) then 1 else 0;
      if oldBit != bit {
        if bit > 1 {
          return Failure(BadBit);
        }
        var written := Bitmaps.WithBit(bits, offset, bit == 1);
        if written.None? {
          bits := Bitmaps.Extended(bits, offset);
          written := Some(Bitmaps.WithBit(bits, offset, bit == 1).value);
        }
        data := data[key := item.(value := Bits(written.value))];
        assert data == old(data)[key := data[key]];
      }
      out := Reply(Int(oldBit));
    }

    method CmdBitop(and: bool, dest: Key, key1: Key, key2: Key) returns (out: Output)
      modifies this`data
      ensures (data, out) == BitopOp(old(data), and, dest, key1, key2)
    {
      var map1, map2 := BytesOf(data, key1), BytesOf(data, key2);
      if map1.None? || map2.None? {
        return Failure(WrongType);
      }
      var output := Bitmaps.Combine(and, map1.value, map2.value);
      data := if output == [] then data - {dest} else data[dest := Item(Bits(output), None)];
      out := Reply(Int(|output|));
    }

    method CmdZadd(key: Key, score: real, member: SortedSets.Name) returns (out: Output)
      modifies this`data
      ensures (data, out) == ZaddOp(old(data), key, score, member)
    {
      var item := EntryOrInsert(key, Scores(SortedSets.ZSet(map[], [])));
      if !item.value.Scores? {
        return Failure(WrongType);
      }
      var z := item.value.zset;
      data := data[key := item.(value := Scores(SortedSets.Added(z, score, member)))];
      assert data == old(data)[key := data[key]];
      out := Reply(Int(if member in z.members then 0 else 1));
    }

    method CmdZrem(key: Key, member: SortedSets.Name) returns (out: Output)
      modifies this`data
      ensures (data, out) == ZremOp(old(data), key, member)
    {
      if key !in data {
        return Reply(Int(0));
      }
      var item := data[key];
      if !item.value.Scores? {
        return Failure(WrongType);
      }
      var z := item.value.zset;
      data := data[key := item.(value := Scores(SortedSets.Removed(z, member)))];
      out := Reply(Int(if member in z.members then 1 else 0));
    }

    method DataCommand(cmd: Cmd, env: Env) returns (out: Output)
      requires IsDataCmd(cmd)
      modifies this`data
      ensures (data, out) == DataOp(old(data), cmd, env.now)
    {
      hide SetOp, RpushOp, LpushOp, LpopOp, XaddOp, IncrOp, SetbitOp, BitopOp, ZaddOp, ZremOp, GetOp, LlenOp, BitcountOp;
      match cmd {
        case Ping => out := Reply(Pong);
        case Set(key, value, expiry) => out := CmdSet(key, value, expiry, env);
        case Get(key) => out := GetOp(data, key, env.now);
        case Rpush(key, values) => out := CmdRpush(key, values);
        case Lpush(key, values) => out := CmdLpush(key, values);
        case Llen(key) => out := LlenOp(data, key);
        case Lpop(key, count) => out := CmdLpop(key, count);
        case Xadd(key, id, fields) => out := CmdXadd(key, id, fields, env);
        case Incr(key) => out := CmdIncr(key);
        case Setbit(key, offset, bit) => out := CmdSetbit(key, offset, bit);
        case Bitcount(key, range) => out := BitcountOp(data, key, range);
        case Bitop(and, dest, key1, key2) => out := CmdBitop(and, dest, key1, key2);
        case Zadd(key, score, member) => out := CmdZadd(key, score, member);
        case Zrem(key, member) => out := CmdZrem(key, member);
      }
    }

    // ----- Commands that park

    method Parking(t: Ts, deadline: nat, entry: RequestEntry)
      requires entry.deadline == deadline && (entry.WaitReq? ==> NoDup(entry.slaves))
      modifies this`parked, this`asked, this`seen, registry
      ensures View() == Park(old(View()), t, entry)
    {
      registry.Insert(t, deadline, entry);
      parked, asked, seen := parked + [t], asked[t := entry.client], seen[t := data];
    }

    method CmdBlpop(key: Key, timeoutMs: Option<nat>, client: Client, env: Env) returns (out: Output)
      modifies this`data, this`parked, this`asked, this`seen, registry
      ensures (View(), out) == BlpopOp(old(View()), key, timeoutMs, client, env)
    {
      var deadline := DeadlineAfter(env.now, timeoutMs);
      out := Silent;
      if key in data {
        var item := data[key];
        if !item.value.List? {
          return Failure(WrongType);
        }
        var items := item.value.items;
        if IsBacklogListEmpty(registry.View(), key) && items != [] {
          data := data[key := item.(value := List(items[1..]))];
          return Reply(Popped(key, items[0]));
        }
      }
      Parking(env.now, deadline, ListReq(client, key, deadline));
    }

    method CmdXread(count: Option<nat>, blockMs: Option<nat>, cursors: seq<Cursor>, client: Client, env: Env) returns (out: Output)
      modifies this`parked, this`asked, this`seen, registry
      ensures (View(), out) == XreadOp(old(View()), count, blockMs, cursors, client, env)
    {
      hide ReadPages, Park, ResolveOne;
      var typed := AllStreams(cursors);
      if !typed {
        return Failure(WrongType);
      }
      var stream := ResolveAll(cursors);
      var pages := Extract(stream, count);
      if pages != [] {
        return Reply(Pages(pages));
      }
      match blockMs {
        case None => out := Reply(EmptyArray);
        case Some(ms) =>
          var deadline := DeadlineAfter(env.now, if ms == 0 then None else blockMs);
          Parking(env.now, deadline, StreamReq(client, count, stream, deadline));
          out := Silent;
      }
    }

    method AllStreams(cursors: seq<Cursor>) returns (typed: bool)
      ensures typed == !(exists c :: c in cursors && c.key in data && !data[c.key].value.Stream?)
    {
      for i := 0 to |cursors|
        invariant forall c :: c in cursors[..i] && c.key in data ==> data[c.key].value.Stream?
      {
        assert cursors[i] in cursors;
        if cursors[i].key in data && !data[cursors[i].key].value.Stream? {
          return false;
        }
      }
      assert cursors[..|cursors|] == cursors;
      typed := true;
    }

    method ResolveAll(cursors: seq<Cursor>) returns (stream: seq<Cursor>)
      ensures stream == Resolve(data, cursors)
    {
      stream := [];
      for i := 0 to |cursors|
        invariant |stream| == i && forall j :: 0 <= j < i ==> stream[j] == ResolveOne(data, cursors[j])
      {
        stream := stream + [ResolveOne(data, cursors[i])];
      }
    }

    /** `_extract_stream_entries` for one stream after the other. */
    method Extract(cursors: seq<Cursor>, count: Option<nat>) returns (pages: seq<(Key, seq<Entry>)>)
      ensures pages == ReadPages(data, cursors, count)
    {
      pages := [];
      for i := 0 to |cursors|
        invariant pages == ReadPages(data, cursors[..i], count)
      {
        assert cursors[..i + 1][..i] == cursors[..i];
        var page := Take(Streams.After(EntriesOf(data, cursors[i].key), cursors[i].id), count);
        if page != [] {
          pages := pages + [(cursors[i].key, page)];
        }
      }
      assert cursors[..|cursors|] == cursors;
    }

    /** Pushes a message for each client. */
    method PushToAll(clients: seq<Client>, body: Body)
      modifies this`responseQueue
      ensures responseQueue == old(responseQueue) + ToAll(clients, body)
    {
      for i := 0 to |clients|
        invariant responseQueue == old(responseQueue) + ToAll(clients, body)[..i]
      {
        responseQueue := responseQueue + [Message(clients[i], body)];
      }
    }

    method CmdWait(required: nat, timeoutMs: Option<nat>, client: Client, env: Env) returns (out: Output)
      requires NoDup(env.slaves)
      modifies this`responseQueue, this`parked, this`asked, this`seen, registry
      ensures (View(), out) == WaitOp(old(View()), required, timeoutMs, client, env)
    {
      if required == 0 {
        return Reply(Int(0));
      }
      if env.offset == 0 {
        return Reply(Int(|env.slaves|));
      }
      PushToAll(env.slaves, GetAck);
      var deadline := DeadlineAfter(env.now, timeoutMs);
      Parking(env.now, deadline, WaitReq(client, required, 0, deadline, env.offset, env.slaves));
      out := Silent;
    }

    // ----- Acknowledgements

    method CmdReplconfAck(slave: Client, offset: int) returns (out: Output)
      modifies this`responseQueue, this`answers, registry
      ensures (View(), out) == AckOp(old(View()), slave, offset)
    {
      hide CountAll, DebtsPaid, TimestampsOf, RemovedAll;
      var clients := if slave in registry.backlogAck then registry.backlogAck[slave] else [];
      var slaveClientDone, clientDone := CountAck(clients, offset);
      PayDebts(slave, slaveClientDone);
      var timestampDone := Timestamps(clientDone);
      RemoveAll(timestampDone);
      answers := answers + timestampDone;
      out := Silent;
    }

    /** Counts the ACK for every client the replica owes one, and replies to those it completes. */
    method CountAck(clients: seq<Client>, offset: int) returns (acked: seq<Client>, served: seq<Client>)
      modifies registry`store, this`responseQueue
      ensures var c := CountAll(old(registry.store), registry.backlogWait, clients, offset);
              && registry.store == c.store && acked == c.acked && served == c.served
              && responseQueue == old(responseQueue) + c.replies
    {
      acked, served := [], [];
      assert responseQueue + [] == responseQueue;
      for i := 0 to |clients|
        invariant var c := CountAll(old(registry.store), registry.backlogWait, clients[..i], offset);
                  && registry.store == c.store && acked == c.acked && served == c.served
                  && responseQueue == old(responseQueue) + c.replies
      {
        assert clients[..i + 1][..i] == clients[..i];
        var id := clients[i];
        if id in registry.backlogWait && registry.backlogWait[id] in registry.store {
          var timestamp := registry.backlogWait[id];
          var entry := registry.store[timestamp];
          if entry.WaitReq? {
            if offset >= entry.offset {
              entry := entry.(actual := entry.actual + 1);
              acked := acked + [id];
            }
            registry.store := registry.store[timestamp := entry];
            if entry.actual >= entry.required {
              responseQueue := responseQueue + [Message(id, Int(entry.actual))];
              served := served + [id];
            }
          }
        }
      }
      assert clients[..|clients|] == clients;
    }

    method PayDebts(slave: Client, acked: seq<Client>)
      modifies registry`backlogAck
      ensures registry.backlogAck == DebtsPaid(old(registry.backlogAck), slave, acked)
    {
      if slave in registry.backlogAck {
        var left := registry.backlogAck[slave];
        for i := 0 to |acked|
          invariant left == WithoutAll(registry.backlogAck[slave], acked[..i])
        {
          assert acked[..i + 1][..i] == acked[..i];
          left := Without(left, acked[i]);
        }
        assert acked[..|acked|] == acked;
        registry.backlogAck := if left == [] then registry.backlogAck - {slave} else registry.backlogAck[slave := left];
      }
    }

    method Timestamps(clients: seq<Client>) returns (timestamps: seq<Ts>)
      ensures timestamps == TimestampsOf(registry.backlogWait, clients)
    {
      timestamps := [];
      for i := 0 to |clients|
        invariant timestamps == TimestampsOf(registry.backlogWait, clients[..i])
      {
        assert clients[..i + 1][..i] == clients[..i];
        if clients[i] in registry.backlogWait {
          timestamps := timestamps + [registry.backlogWait[clients[i]]];
        }
      }
      assert clients[..|clients|] == clients;
    }

    method RemoveAll(timestamps: seq<Ts>)
      modifies registry
      ensures registry.View() == RemovedAll(old(registry.View()), timestamps)
    {
      hide Registry.Removed;
      for i := 0 to |timestamps|
        invariant registry.View() == RemovedAll(old(registry.View()), timestamps[..i])
      {
        assert timestamps[..i + 1][..i] == timestamps[..i];
        var _ := registry.Remove(timestamps[i]);
      }
      assert timestamps[..|timestamps|] == timestamps;
    }

    // ----- MULTI and WATCH

    method CmdMulti(client: Client) returns (out: Output)
      modifies registry`backlogTxn
      ensures (View(), out) == MultiOp(old(View()), client)
    {
      if client in registry.backlogTxn {
        return Failure(NestedMulti);
      }
      registry.backlogTxn := registry.backlogTxn[client := []];
      out := Reply(Okay);
    }

    method EndTransaction(client: Client)
      modifies registry`backlogTxn, registry`watchlist
      ensures View() == EndTxn(old(View()), client)
    {
      registry.UnwatchAll(client);
      registry.backlogTxn := registry.backlogTxn - {client};
    }

    method CmdDiscard(client: Client) returns (out: Output)
      modifies registry`backlogTxn, registry`watchlist
      ensures (View(), out) == DiscardOp(old(View()), client)
    {
      if client !in registry.backlogTxn {
        return Failure(NoMulti);
      }
      EndTransaction(client);
      out := Reply(Okay);
    }

    // ----- `_execute_cmd`

    method Dispatched(cmd: Cmd, client: Client, env: Env) returns (out: Output)
      requires NoDup(env.slaves) && (cmd.Exec? ==> client !in registry.backlogTxn)
      modifies this`data, this`responseQueue, this`parked, this`asked, this`seen, this`answers, registry
      ensures (View(), out) == Dispatch(old(View()), cmd, client, env)
    {
      hide DataOp, BlpopOp, XreadOp, WaitOp, AckOp, MultiOp, DiscardOp, Watched, Unwatched;
      if IsDataCmd(cmd) {
        out := DataCommand(cmd, env);
        return;
      }
      match cmd {
        case Blpop(key, timeoutMs) => out := CmdBlpop(key, timeoutMs, client, env);
        case Xread(count, blockMs, cursors) => out := CmdXread(count, blockMs, cursors, client, env);
        case Multi => out := CmdMulti(client);
        case Exec => out := Failure(NoMulti);
        case Discard => out := CmdDiscard(client);
        case Watch(keys) =>
          registry.Watch(keys, client);
          out := Reply(Okay);
        case Unwatch =>
          registry.UnwatchAll(client);
          out := Reply(Okay);
        case Wait(required, timeoutMs) => out := CmdWait(required, timeoutMs, client, env);
        case ReplconfAck(offset) => out := CmdReplconfAck(client, offset);
        case ReplconfGetAck(any) => out := if any then Reply(AckOffset(Max(env.offset, 0))) else Silent;
      }
    }

    method ExecuteCmd(cmd: Cmd, buf: Bytes, client: Client, env: Env) returns (out: Output)
      requires NoDup(env.slaves) && (cmd.Exec? ==> client !in registry.backlogTxn)
      modifies this, registry
      ensures (View(), out) == Execute(old(View()), cmd, buf, client, env)
    {
      hide Dispatch, Dirtied, Settle;
      registry.SetDirty(cmd);
      out := Dispatched(cmd, client, env);
      if out.Reply? {
        SettleReply(cmd, buf, env);
      }
    }

    /** What `_execute_cmd` does once it has a reply. */
    method SettleReply(cmd: Cmd, buf: Bytes, env: Env)
      modifies this`flagBacklogList, this`flagBacklogStream, this`aof, this`responseQueue
      ensures View() == Settle(old(View()), cmd, buf, env)
    {
      hide ToAll, IsFlagList, IsFlagStream, ToBeBroadcast;
      flagBacklogList, flagBacklogStream := IsFlagList(cmd), IsFlagStream(cmd);
      if ToBeBroadcast(cmd) {
        Broadcast(buf, env.slaves);
      }
    }

    /** A logged command goes to the append-only file and to every replica. */
    method Broadcast(buf: Bytes, slaves: seq<Client>)
      modifies this`aof, this`responseQueue
      ensures aof == old(aof) + buf && responseQueue == old(responseQueue) + ToAll(slaves, Raw(buf))
    {
      aof := aof + buf;
      PushToAll(slaves, Raw(buf));
    }

    // ----- Transactions and requests

    method CmdExec(client: Client, envs: seq<Env>) returns (out: Output)
      requires client in registry.backlogTxn && NoExec(registry.backlogTxn[client]) && |envs| == |registry.backlogTxn[client]|
      requires forall i :: 0 <= i < |envs| ==> NoDup(envs[i].slaves)
      modifies this, registry
      ensures (View(), out) == ExecOp(old(View()), client, envs)
    {
      hide Execute, EndTxn;
      if IsAnyDirty(registry.watchlist, client) {
        EndTransaction(client);
        return Reply(NullArray);
      }
      var queue := registry.backlogTxn[client];
      registry.backlogTxn := registry.backlogTxn[client := []];
      var bodies := ExecuteQueue(queue, client, envs);
      EndTransaction(client);
      out := Reply(if bodies == [] then EmptyArray else Batch(bodies));
    }

    method ExecuteQueue(queue: seq<Queued>, client: Client, envs: seq<Env>) returns (bodies: seq<Body>)
      requires NoExec(queue) && |envs| == |queue| && forall i :: 0 <= i < |envs| ==> NoDup(envs[i].slaves)
      modifies this, registry
      ensures (View(), bodies) == ExecuteAll(old(View()), queue, client, envs)
    {
      hide Execute;
      bodies := [];
      for i := 0 to |queue|
        invariant (View(), bodies) == ExecuteAll(old(View()), queue[..i], client, envs[..i])
      {
        assert queue[..i + 1][..i] == queue[..i] && envs[..i + 1][..i] == envs[..i];
        var out := ExecuteCmd(queue[i].cmd, queue[i].buf, client, envs[i]);
        bodies := bodies + BodyOf(out);
      }
      assert queue[..|queue|] == queue && envs[..|queue|] == envs;
    }

    method HandleRequest(request: Option<Cmd>, buf: Bytes, client: Client, envs: seq<Env>) returns (out: Output)
      requires |envs| == EnvsNeeded(View(), request, client)
      requires client in registry.backlogTxn ==> NoExec(registry.backlogTxn[client])
      requires forall i :: 0 <= i < |envs| ==> NoDup(envs[i].slaves)
      modifies this, registry
      ensures (View(), out) == Handle(old(View()), request, buf, client, envs)
    {
      hide Execute, ExecOp, DiscardOp;
      match request {
        case None => out := Failure(BadCommand);
        case Some(c) =>
          if client !in registry.backlogTxn {
            out := ExecuteCmd(c, buf, client, envs[0]);
          } else if c.Exec? {
            out := CmdExec(client, envs);
          } else if c.Discard? {
            out := CmdDiscard(client);
          } else if c.Watch? {
            out := Failure(WatchInMulti);
          } else {
            registry.backlogTxn := registry.backlogTxn[client := registry.backlogTxn[client] + [Queued(c, buf)]];
            out := Reply(QueuedReply);
          }
      }
    }

    // ----- Sweeps

    /** Removes the requests and collects their tasks. */
    method Collect(timestamps: seq<Ts>) returns (tasks: seq<Task>)
      modifies registry
      ensures (registry.View(), tasks) == Collected(old(registry.View()), timestamps)
    {
      hide Registry.Removed;
      tasks := [];
      for i := 0 to |timestamps|
        invariant (registry.View(), tasks) == Collected(old(registry.View()), timestamps[..i])
      {
        assert timestamps[..i + 1][..i] == timestamps[..i];
        var entry := registry.Remove(timestamps[i]);
        if entry.Some? {
          tasks := tasks + [Task(timestamps[i], entry.value)];
        }
      }
      assert timestamps[..|timestamps|] == timestamps;
    }

    method BlpopTask(task: Task)
      requires task.entry.ListReq?
      modifies this`data, this`responseQueue, this`answers, registry
      ensures View() == RunListTask(old(View()), task)
    {
      var key := task.entry.key;
      if key in data && data[key].value.List? && data[key].value.items != [] {
        var items := data[key].value.items;
        data := data[key := data[key].(value := List(items[1..]))];
        responseQueue := responseQueue + [Message(task.entry.client, Popped(key, items[0]))];
        var _ := registry.Remove(task.t);
        answers := answers + [task.t];
      }
    }

    method XreadTask(task: Task)
      requires task.entry.StreamReq?
      modifies this`responseQueue, this`answers, registry
      ensures View() == RunStreamTask(old(View()), task)
    {
      var pages := Extract(task.entry.cursors, task.entry.count);
      if pages == [] {
        responseQueue := responseQueue + [Message(task.entry.client, NullArray)];
      } else {
        responseQueue := responseQueue + [Message(task.entry.client, Pages(pages))];
        var _ := registry.Remove(task.t);
      }
      answers := answers + [task.t];
    }

    method Run(tasks: seq<Task>)
      modifies this`data, this`responseQueue, this`answers, registry
      ensures View() == RunTasks(old(View()), tasks)
    {
      hide RunListTask, RunStreamTask;
      for i := 0 to |tasks|
        invariant View() == RunTasks(old(View()), tasks[..i])
      {
        assert tasks[..i + 1][..i] == tasks[..i];
        match tasks[i].entry {
          case ListReq(_, _, _) => BlpopTask(tasks[i]);
          case StreamReq(_, _, _, _) => XreadTask(tasks[i]);
          case WaitReq(_, _, _, _, _, _) =>
        }
      }
      assert tasks[..|tasks|] == tasks;
    }

    /** `order` is the order in which the backlog of lists happens to be walked. */
    method ServeBacklogList() returns (ghost order: seq<Key>)
      modifies this`data, this`responseQueue, this`answers, this`flagBacklogList, registry
      ensures old(flagBacklogList) ==> Enumerates(order, old(registry.backlogList).Keys)
      ensures View() == SweepLists(old(View()), order)
    {
      order := [];
      if !flagBacklogList {
        return;
      }
      var timestamps := [];
      var rest := registry.backlogList.Keys;
      while rest != {}
        invariant NoDup(order) && rest <= registry.backlogList.Keys
        invariant forall k :: k in registry.backlogList <==> (k in order) != (k in rest)
        invariant forall k :: k in order ==> k in registry.backlogList
        invariant timestamps == ChosenWaiters(registry.View(), data, order)
        decreases rest
      {
        var k :| k in rest;
        assert (order + [k])[..|order|] == order;
        timestamps := timestamps + registry.backlogList[k][..MaxPop(data, registry.View(), k)];
        order, rest := order + [k], rest - {k};
      }
      hide ChosenWaiters, Collected, RunTasks;
      var tasks := Collect(timestamps);
      Run(tasks);
      flagBacklogList := false;
    }

    /** `order` is the order in which the set of readers happens to be walked. */
    method ServeBacklogStream() returns (ghost order: seq<Ts>)
      modifies this`data, this`responseQueue, this`answers, this`flagBacklogStream, registry
      ensures old(flagBacklogStream) ==> Enumerates(order, old(registry.backlogStream))
      ensures View() == SweepStreams(old(View()), order)
    {
      hide HasItems, Collected, RunTasks;
      order := [];
      if !flagBacklogStream {
        return;
      }
      var timestamps := [];
      var rest := registry.backlogStream;
      while rest != {}
        invariant View() == old(View()) && NoDup(order) && rest <= registry.backlogStream
        invariant forall t :: t in registry.backlogStream <==> (t in order) != (t in rest)
        invariant forall t :: t in order ==> t in registry.backlogStream
        invariant timestamps == ChosenReaders(registry.View(), data, order)
        decreases rest
      {
        var t :| t in rest;
        assert (order + [t])[..|order|] == order;
        var hasItems := AnyAvailable(t);
        if hasItems {
          timestamps := timestamps + [t];
        }
        order, rest := order + [t], rest - {t};
      }
      hide ChosenReaders;
      var tasks := Collect(timestamps);
      Run(tasks);
      flagBacklogStream := false;
    }

    method AnyAvailable(t: Ts) returns (hasItems: bool)
      ensures hasItems == HasItems(registry.View(), data, t)
    {
      hasItems := false;
      assert registry.View().store == registry.store;
      if t in registry.store && registry.store[t].StreamReq? {
        var cursors := registry.store[t].cursors;
        for i := 0 to |cursors|
          invariant forall c :: c in cursors[..i] ==> !IsAvailable(data, c)
        {
          assert cursors[i] in cursors;
          if IsAvailable(data, cursors[i]) {
            return true;
          }
        }
        assert cursors[..|cursors|] == cursors;
      }
    }

    // ----- Expiry

    method CallbackDeadlineExpire() returns (nearest: nat)
      requires registry.deadline != map[]
      modifies this`responseQueue, this`answers, registry
      ensures IsNearest(old(registry.View()), nearest) && View() == Expire(old(View()), nearest)
    {
      hide Registry.Removed;
      assert exists d :: d in registry.deadline && forall x :: x in registry.deadline ==> d <= x by {
        var least := Expiry.LeastExists(registry.deadline.Keys);
      }
      nearest :| nearest in registry.deadline && forall x :: x in registry.deadline ==> nearest <= x;
      var timestamp := registry.deadline[nearest];
      if timestamp !in registry.store {
        StreamSweeps.RemoveAbsent(registry.View(), timestamp);
      }
      var entry := registry.Remove(timestamp);
      if entry.Some? {
        responseQueue := responseQueue + [Message(entry.value.client, TimeoutBody(entry.value))];
        var _ := registry.Remove(timestamp);
        answers := answers + [timestamp];
      }
    }
  }
}
