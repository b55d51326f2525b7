/** The replica feed: what a connected replica is sent, and what it makes of it. */
module Replicas {
  import opened Base
  import opened Commands
  import opened Registry
  import opened Store
  import opened Handler
  import opened Blocking
  import opened Runs

  // ----- What is sent

  /** What a message puts on the connection of a replica; `ack` is what GETACK is printed as. */
  function PartFor(m: Message, replica: Client, ack: Bytes): Bytes {
    if m.to != replica then []
    else
      match m.body
      case Raw(bytes) => bytes
      case GetAck => ack
      case _ => []
  }

  function FeedOf(queue: seq<Message>, replica: Client, ack: Bytes): Bytes {
    if queue == [] then []
    else FeedOf(queue[..|queue| - 1], replica, ack) + PartFor(queue[|queue| - 1], replica, ack)
  }

  lemma {:induction false} FeedAppend(a: seq<Message>, b: seq<Message>, replica: Client, ack: Bytes)
    ensures FeedOf(a + b, replica, ack) == FeedOf(a, replica, ack) + FeedOf(b, replica, ack)
  {
    if b == [] {
      assert a + b == a;
    } else {
      var n := |b| - 1;
      assert (a + b)[..|a| + n] == a + b[..n] && (a + b)[|a| + n] == b[n];
      FeedAppend(a, b[..n], replica, ack);
      Regroup(FeedOf(a, replica, ack), FeedOf(b[..n], replica, ack), PartFor(b[n], replica, ack));
    }
  }

  lemma {:induction false} NoFeed(queue: seq<Message>, replica: Client, ack: Bytes)
    requires forall i :: 0 <= i < |queue| ==> PartFor(queue[i], replica, ack) == []
    ensures FeedOf(queue, replica, ack) == []
  {
    if queue != [] {
      NoFeed(queue[..|queue| - 1], replica, ack);
    }
  }

  /** Of a message to all, each replica gets one copy. */
  lemma {:induction false} FeedOnce(clients: seq<Client>, body: Body, replica: Client, ack: Bytes)
    requires NoDup(clients)
    ensures FeedOf(ToAll(clients, body), replica, ack) == if replica in clients then PartFor(Message(replica, body), replica, ack) else []
  {
    if clients != [] {
      var n := |clients| - 1;
      var all := ToAll(clients, body);
      assert all[..n] == ToAll(clients[..n], body) && all[n] == Message(clients[n], body);
      assert clients[n] !in clients[..n];
      assert replica in clients <==> replica in clients[..n] || replica == clients[n];
      FeedOnce(clients[..n], body, replica, ack);
      hide NoDup, ToAll;
      assert FeedOf(all, replica, ack) == FeedOf(all[..n], replica, ack) + PartFor(all[n], replica, ack);
      assert [] + PartFor(all[n], replica, ack) == PartFor(all[n], replica, ack);
      assert FeedOf(all[..n], replica, ack) + [] == FeedOf(all[..n], replica, ack);
    }
  }

  // ----- What a step sends

  /** What a step adds to the queue is no part of the feed, and it logs nothing. */
  ghost predicate Quiet(h: Handler, h': Handler, replica: Client, ack: Bytes) {
    h'.log == h.log && FeedOf(h'.queue, replica, ack) == FeedOf(h.queue, replica, ack)
  }

  lemma QuietMessages(queue: seq<Message>, more: seq<Message>, replica: Client, ack: Bytes)
    requires forall i :: 0 <= i < |more| ==> IsAnswer(more[i])
    ensures FeedOf(queue + more, replica, ack) == FeedOf(queue, replica, ack)
  {
    FeedAppend(queue, more, replica, ack);
    NoFeed(more, replica, ack);
    assert FeedOf(queue, replica, ack) + [] == FeedOf(queue, replica, ack);
  }

  lemma SentToAll(queue: seq<Message>, clients: seq<Client>, body: Body, replica: Client, ack: Bytes)
    requires NoDup(clients) && replica in clients
    ensures FeedOf(queue + ToAll(clients, body), replica, ack)
         == FeedOf(queue, replica, ack) + PartFor(Message(replica, body), replica, ack)
  {
    FeedAppend(queue, ToAll(clients, body), replica, ack);
    FeedOnce(clients, body, replica, ack);
  }

  lemma {:induction false} CountsReplyNumbers(store: map<Ts, RequestEntry>, waits: map<Client, Ts>, clients: seq<Client>, offset: int)
    ensures forall m :: m in CountAll(store, waits, clients, offset).replies ==> m.body.Int?
  {
    if clients != [] {
      CountsReplyNumbers(store, waits, clients[..|clients| - 1], offset);
    }
  }

  lemma AckQuiet(h: Handler, slave: Client, offset: int, replica: Client, ack: Bytes)
    ensures Quiet(h, AckOp(h, slave, offset).0, replica, ack)
  {
    var clients := if slave in h.reg.acks then h.reg.acks[slave] else [];
    CountsReplyNumbers(h.reg.store, h.reg.waits, clients, offset);
    hide CountAll, RemovedAll, DebtsPaid, TimestampsOf, FeedOf;
    QuietMessages(h.queue, CountAll(h.reg.store, h.reg.waits, clients, offset).replies, replica, ack);
  }

  /** WAIT asks every replica when it parks. */
  predicate Asks(cmd: Cmd, env: Env) {
    cmd.Wait? && cmd.required > 0 && env.offset != 0
  }

  lemma DispatchFeeds(h: Handler, cmd: Cmd, client: Client, env: Env, replica: Client, ack: Bytes)
    requires (cmd.Exec? ==> client !in h.reg.txns) && NoDup(env.slaves) && replica in env.slaves
    ensures var (h', out) := Dispatch(h, cmd, client, env);
            && h'.log == h.log
            && FeedOf(h'.queue, replica, ack) == FeedOf(h.queue, replica, ack) + (if Asks(cmd, env) then ack else [])
            && (Asks(cmd, env) ==> out.Silent?)
  {
    hide DataOp, AckOp, ReadPages, Watched, Unwatched, Resolve, Inserted, FeedOf, ToAll, NoDup;
    if cmd.ReplconfAck? {
      AckQuiet(h, client, cmd.ackOffset, replica, ack);
    }
    if Asks(cmd, env) {
      SentToAll(h.queue, env.slaves, GetAck, replica, ack);
    } else {
      assert FeedOf(h.queue, replica, ack) + [] == FeedOf(h.queue, replica, ack);
    }
  }

  predicate Logs(cmd: Cmd, out: Output) {
    ToBeBroadcast(cmd) && out.Reply?
  }

  /** What executing a command sends to each replica. */
  function SentFor(cmd: Cmd, out: Output, buf: Bytes, env: Env, ack: Bytes): Bytes {
    if Asks(cmd, env) then ack else if Logs(cmd, out) then buf else []
  }

  lemma ExecuteFeeds(h: Handler, cmd: Cmd, buf: Bytes, client: Client, env: Env, replica: Client, ack: Bytes)
    requires (cmd.Exec? ==> client !in h.reg.txns) && NoDup(env.slaves) && replica in env.slaves
    ensures var (h', out) := Execute(h, cmd, buf, client, env);
            && h'.log == h.log + (if Logs(cmd, out) then buf else [])
            && FeedOf(h'.queue, replica, ack) == FeedOf(h.queue, replica, ack) + SentFor(cmd, out, buf, env, ack)
  {
    hide Dispatch, Dirtied, FeedOf, Settle, NoDup, ToBeBroadcast, Asks;
    var marked := Marked(h, cmd);
    var (dispatched, out) := Dispatch(marked, cmd, client, env);
    DispatchFeeds(marked, cmd, client, env, replica, ack);
    assert Execute(h, cmd, buf, client, env) == (if out.Reply? then Settle(dispatched, cmd, buf, env) else dispatched, out);
    hide Execute;
    var feed := FeedOf(h.queue, replica, ack);
    assert feed + [] == feed && h.log + [] == h.log;
    if out.Reply? {
      SettleFeeds(dispatched, cmd, buf, env, replica, ack);
    }
  }

  lemma SettleFeeds(h: Handler, cmd: Cmd, buf: Bytes, env: Env, replica: Client, ack: Bytes)
    requires NoDup(env.slaves) && replica in env.slaves
    ensures var h' := Settle(h, cmd, buf, env);
            && h'.log == h.log + (if ToBeBroadcast(cmd) then buf else [])
            && FeedOf(h'.queue, replica, ack) == FeedOf(h.queue, replica, ack) + (if ToBeBroadcast(cmd) then buf else [])
  {
    SentToAll(h.queue, env.slaves, Raw(buf), replica, ack);
    hide FeedOf, ToAll, NoDup, IsFlagList, IsFlagStream, ToBeBroadcast;
    assert FeedOf(h.queue, replica, ack) + [] == FeedOf(h.queue, replica, ack) && h.log + [] == h.log;
  }

  lemma {:induction false} TasksQuiet(h: Handler, tasks: seq<Task>, replica: Client, ack: Bytes)
    ensures Quiet(h, RunTasks(h, tasks), replica, ack)
  {
    if tasks != [] {
      hide ReadPages, Registry.Removed, FeedOf;
      TasksQuiet(h, tasks[..|tasks| - 1], replica, ack);
      var before := RunTasks(h, tasks[..|tasks| - 1]);
      var after := RunTasks(h, tasks);
      if after.queue != before.queue {
        var m := after.queue[|after.queue| - 1];
        assert after.queue == before.queue + [m] && IsAnswer(m);
        QuietMessages(before.queue, [m], replica, ack);
      }
    }
  }

  lemma ReleasedQuiet(h: Handler, ts: seq<Ts>, replica: Client, ack: Bytes)
    ensures Quiet(h, Released(h, ts), replica, ack)
  {
    var (reg, tasks) := Collected(h.reg, ts);
    TasksQuiet(h.(reg := reg), tasks, replica, ack);
  }

  lemma ExpireQuiet(h: Handler, d: nat, replica: Client, ack: Bytes)
    requires d in h.reg.deadlines
    ensures Quiet(h, Expire(h, d), replica, ack)
  {
    hide FeedOf, Registry.Removed;
    var t := h.reg.deadlines[d];
    if t in h.reg.store {
      QuietMessages(h.queue, [Message(h.reg.store[t].client, TimeoutBody(h.reg.store[t]))], replica, ack);
    }
  }

  /** Sweeps and the timer send nothing of the feed. */
  lemma OthersQuiet(h: Handler, e: Event, replica: Client, ack: Bytes)
    requires Valid(h) && Enabled(h, e) && !e.Request?
    ensures Quiet(h, Apply(h, e), replica, ack)
  {
    hide Valid, Released, ChosenWaiters, ChosenReaders, Expire, FeedOf;
    match e
    case ListSweep(keys) => ReleasedQuiet(h, ChosenWaiters(h.reg, h.data, keys), replica, ack);
    case StreamSweep(readers) => ReleasedQuiet(h, ChosenReaders(h.reg, h.data, readers), replica, ack);
    case Timer(deadline) => ExpireQuiet(h, deadline, replica, ack);
  }

  // ----- The writes alone

  /** The replica is connected whenever a command is executed. */
  predicate Connected(envs: seq<Env>, replica: Client) {
    forall i :: 0 <= i < |envs| ==> NoDup(envs[i].slaves) && replica in envs[i].slaves
  }

  lemma WriteFeeds(h: Handler, cmd: Cmd, buf: Bytes, client: Client, env: Env, replica: Client)
    requires (cmd.Exec? ==> client !in h.reg.txns) && NoDup(env.slaves) && replica in env.slaves
    requires FeedOf(h.queue, replica, []) == h.log
    ensures var h' := Execute(h, cmd, buf, client, env).0; FeedOf(h'.queue, replica, []) == h'.log
  {
    ExecuteFeeds(h, cmd, buf, client, env, replica, []);
    DispatchFeeds(Marked(h, cmd), cmd, client, env, replica, []);
    hide FeedOf, Dispatch, Dirtied, Settle;
  }

  lemma {:induction false} BatchFeeds(h: Handler, queue: seq<Queued>, client: Client, envs: seq<Env>, replica: Client)
    requires NoExec(queue) && |envs| == |queue| && Connected(envs, replica) && FeedOf(h.queue, replica, []) == h.log
    ensures var h' := ExecuteAll(h, queue, client, envs).0; FeedOf(h'.queue, replica, []) == h'.log
  {
    if queue != [] {
      hide Execute, FeedOf;
      var n := |queue| - 1;
      BatchFeeds(h, queue[..n], client, envs[..n], replica);
      WriteFeeds(ExecuteAll(h, queue[..n], client, envs[..n]).0, queue[n].cmd, queue[n].buf, client, envs[n], replica);
    }
  }

  lemma RequestFeeds(h: Handler, cmd: Option<Cmd>, buf: Bytes, client: Client, envs: seq<Env>, replica: Client)
    requires |envs| == EnvsNeeded(h, cmd, client) && (client in h.reg.txns ==> NoExec(h.reg.txns[client]))
    requires Connected(envs, replica) && FeedOf(h.queue, replica, []) == h.log
    ensures var h' := Handle(h, cmd, buf, client, envs).0; FeedOf(h'.queue, replica, []) == h'.log
  {
    hide Execute, FeedOf, Unwatched, ExecuteAll;
    if cmd.Some? {
      if client !in h.reg.txns {
        WriteFeeds(h, cmd.value, buf, client, envs[0], replica);
      } else if cmd.value.Exec? && !IsAnyDirty(h.reg.watches, client) {
        BatchFeeds(Runs.Drained(h, client), h.reg.txns[client], client, envs, replica);
      }
    }
  }

  /** The replica is connected during every request of the run. */
  predicate AlwaysConnected(events: seq<Event>, replica: Client) {
    forall i :: 0 <= i < |events| && events[i].Request? ==> Connected(events[i].envs, replica)
  }

  /**
   * In every run the writes a replica that is connected throughout has been sent, GETACKs left out, are exactly the
   * bytes of the log.
   */
  lemma {:induction false} FeedIsLog(events: seq<Event>, replica: Client)
    requires Possible(events) && AlwaysConnected(events, replica)
    ensures FeedOf(Runs.After(events).queue, replica, []) == Runs.After(events).log
  {
    if events != [] {
      hide Valid, FeedOf, Handle, SweepLists, SweepStreams, Expire, CmdEnabled, BatchEnabled;
      var n := |events| - 1;
      FeedIsLog(events[..n], replica);
      EventFeeds(Runs.After(events[..n]), events[n], replica);
    }
  }

  lemma EventFeeds(h: Handler, e: Event, replica: Client)
    requires Valid(h) && Enabled(h, e) && FeedOf(h.queue, replica, []) == h.log
    requires e.Request? ==> Connected(e.envs, replica)
    ensures FeedOf(Apply(h, e).queue, replica, []) == Apply(h, e).log
  {
    hide Handle, FeedOf, CmdEnabled, BatchEnabled;
    match e
    case Request(client, cmd, buf, envs) =>
      assert client in h.reg.txns ==> AllQueueable(h.reg.txns[client]);
      hide Valid;
      RequestFeeds(h, cmd, buf, client, envs, replica);
    case _ => OthersQuiet(h, e, replica, []);
  }

  // ----- Nothing else is sent

  /** Requests parked on the way are the client's. */
  ghost predicate OwnRequests(asked: map<Ts, Client>, asked': map<Ts, Client>, client: Client) {
    forall t :: t in asked' ==> (t in asked && asked'[t] == asked[t]) || asked'[t] == client
  }

  lemma DispatchAsks(h: Handler, cmd: Cmd, client: Client, env: Env)
    requires cmd.Exec? ==> client !in h.reg.txns
    ensures OwnRequests(h.asked, Dispatch(h, cmd, client, env).0.asked, client)
    ensures cmd.ReplconfAck? ==> Dispatch(h, cmd, client, env).0.asked == h.asked
  {
    hide DataOp, ReadPages, Watched, Unwatched, Resolve, Inserted, ToAll, CountAll, RemovedAll, TimestampsOf, DebtsPaid;
  }

  lemma ExecuteAsks(h: Handler, cmd: Cmd, buf: Bytes, client: Client, env: Env)
    requires cmd.Exec? ==> client !in h.reg.txns
    ensures OwnRequests(h.asked, Execute(h, cmd, buf, client, env).0.asked, client)
    ensures cmd.ReplconfAck? ==> Execute(h, cmd, buf, client, env).0.asked == h.asked
  {
    DispatchAsks(Marked(h, cmd), cmd, client, env);
    ExecuteParts(h, cmd, buf, client, env);
    SettleKeeps(Dispatch(Marked(h, cmd), cmd, client, env).0, cmd, buf, env);
    hide Dispatch, Dirtied, OwnRequests, Execute, Settle;
  }

  lemma {:induction false} BatchAsks(h: Handler, queue: seq<Queued>, client: Client, envs: seq<Env>)
    requires NoExec(queue) && |envs| == |queue|
    ensures OwnRequests(h.asked, ExecuteAll(h, queue, client, envs).0.asked, client)
  {
    if queue != [] {
      hide Execute;
      var n := |queue| - 1;
      BatchAsks(h, queue[..n], client, envs[..n]);
      ExecuteAsks(ExecuteAll(h, queue[..n], client, envs[..n]).0, queue[n].cmd, queue[n].buf, client, envs[n]);
    }
  }

  lemma RequestAsks(h: Handler, cmd: Option<Cmd>, buf: Bytes, client: Client, envs: seq<Env>)
    requires |envs| == EnvsNeeded(h, cmd, client) && (client in h.reg.txns ==> NoExec(h.reg.txns[client]))
    ensures OwnRequests(h.asked, Handle(h, cmd, buf, client, envs).0.asked, client)
    ensures cmd.None? || (cmd.value.ReplconfAck? && client !in h.reg.txns) ==> Handle(h, cmd, buf, client, envs).0.asked == h.asked
  {
    hide Execute, Unwatched, ExecuteAll, IsAnyDirty;
    if cmd.Some? {
      if client !in h.reg.txns {
        ExecuteAsks(h, cmd.value, buf, client, envs[0]);
      } else if cmd.value.Exec? && !IsAnyDirty(h.reg.watches, client) {
        BatchAsks(Runs.Drained(h, client), h.reg.txns[client], client, envs);
      }
    }
  }

  lemma {:induction false} TasksAsk(h: Handler, tasks: seq<Task>)
    ensures RunTasks(h, tasks).asked == h.asked
  {
    if tasks != [] {
      hide ReadPages, Registry.Removed;
      TasksAsk(h, tasks[..|tasks| - 1]);
    }
  }

  lemma OthersAsk(h: Handler, e: Event)
    requires Valid(h) && Enabled(h, e) && !e.Request?
    ensures Apply(h, e).asked == h.asked
  {
    hide Valid, ChosenWaiters, ChosenReaders, RunTasks, Collected;
    match e
    case ListSweep(keys) =>
      var (reg, tasks) := Collected(h.reg, ChosenWaiters(h.reg, h.data, keys));
      TasksAsk(h.(reg := reg), tasks);
    case StreamSweep(readers) =>
      var (reg, tasks) := Collected(h.reg, ChosenReaders(h.reg, h.data, readers));
      TasksAsk(h.(reg := reg), tasks);
    case Timer(deadline) =>
  }

  /** The connection of the replica only sends ACKs, or what is no command. */
  predicate OnlyAcks(events: seq<Event>, replica: Client) {
    forall i :: 0 <= i < |events| && events[i].Request? && events[i].client == replica ==>
      events[i].cmd.None? || events[i].cmd.value.ReplconfAck?
  }

  ghost predicate NeverAsked(asked: map<Ts, Client>, client: Client) {
    forall t :: t in asked ==> asked[t] != client
  }

  lemma {:induction false} NeverParks(events: seq<Event>, replica: Client)
    requires Possible(events) && OnlyAcks(events, replica)
    ensures NeverAsked(Runs.After(events).asked, replica)
  {
    if events != [] {
      hide Valid, Enabled, NeverAsked;
      var n := |events| - 1;
      NeverParks(events[..n], replica);
      EventAsks(Runs.After(events[..n]), events[n], replica);
    } else {
      assert START.asked == map[];
    }
  }

  lemma EventAsks(h: Handler, e: Event, replica: Client)
    requires Valid(h) && Enabled(h, e) && NeverAsked(h.asked, replica)
    requires e.Request? && e.client == replica ==> e.cmd.None? || e.cmd.value.ReplconfAck?
    ensures NeverAsked(Apply(h, e).asked, replica)
  {
    hide Handle, CmdEnabled, BatchEnabled;
    match e
    case Request(client, cmd, buf, envs) =>
      assert client in h.reg.txns ==> AllQueueable(h.reg.txns[client]);
      hide Valid;
      RequestAsks(h, cmd, buf, client, envs);
    case _ => OthersAsk(h, e);
  }

  lemma {:induction false} AnswersAreAddressed(queue: seq<Message>, m: Message)
    requires m in queue && IsAnswer(m)
    ensures m.to in Addressees(queue)
  {
    if m != queue[|queue| - 1] {
      AnswersAreAddressed(queue[..|queue| - 1], m);
    }
  }

  lemma {:induction false} OwnersAsked(asked: map<Ts, Client>, answers: seq<Ts>, client: Client)
    requires client in Owners(asked, answers)
    ensures exists t :: t in asked && asked[t] == client
  {
    var n := |answers| - 1;
    if client in Owners(asked, answers[..n]) {
      OwnersAsked(asked, answers[..n], client);
    }
  }

  lemma OnlyFeed(queue: seq<Message>, asked: map<Ts, Client>, answers: seq<Ts>, replica: Client, m: Message)
    requires Addressees(queue) == Owners(asked, answers) && NeverAsked(asked, replica)
    requires m in queue && m.to == replica
    ensures m.body.Raw? || m.body.GetAck?
  {
    if IsAnswer(m) {
      AnswersAreAddressed(queue, m);
      OwnersAsked(asked, answers, replica);
      assert false;
    }
  }

  /** So the queue holds nothing for it but writes and GETACKs. */
  lemma NothingElseIsSent(events: seq<Event>, replica: Client, m: Message)
    requires Possible(events) && OnlyAcks(events, replica)
    requires m in Runs.After(events).queue && m.to == replica
    ensures m.body.Raw? || m.body.GetAck?
  {
    var h := Runs.After(events);
    NeverParks(events, replica);
    assert Addressees(h.queue) == Owners(h.asked, h.answers) by { assert Valid(h); }
    hide *;
    OnlyFeed(h.queue, h.asked, h.answers, replica, m);
  }
}
