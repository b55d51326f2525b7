/** Runs of the whole handler: requests, sweeps and expiries in any order, from an empty start. */
module Runs {
  import opened Base
  import opened Commands
  import opened Registry
  import opened RegistryInvariant
  import opened Store
  import opened Handler
  import opened Blocking
  import opened Sweeps
  import opened StreamSweeps

  // ----- One command

  /** The commands that leave a request behind. */
  predicate Parks(h: Handler, cmd: Cmd, env: Env) {
    match cmd
    case Blpop(key, _) => key in h.data ==> h.data[key].value.List?
    case Xread(count, blockMs, cursors) =>
      && blockMs.Some?
      && (forall c :: c in cursors && c.key in h.data ==> h.data[c.key].value.Stream?)
      && ReadPages(h.data, Resolve(h.data, cursors), count) == []
    case Wait(required, _) => required > 0 && env.offset != 0
    case _ => false
  }

  /** The timestamp of a command that parks is new, replicas are distinct, and a client waits once at a time. */
  predicate CmdEnabled(h: Handler, cmd: Cmd, client: Client, env: Env) {
    && NoDup(env.slaves)
    && (Parks(h, cmd, env) ==> env.now !in h.parked && (cmd.Wait? ==> client !in h.reg.waits))
  }

  /** BLPOP never pops at once: no queue is ever empty, so the request parks. */
  lemma BlpopParks(h: Handler, key: Key, timeoutMs: Option<nat>, client: Client, env: Env)
    requires Valid(h)
    ensures BlpopOp(h, key, timeoutMs, client, env)
         == if key in h.data && !h.data[key].value.List? then (h, Failure(WrongType))
            else (Park(h, env.now, ListReq(client, key, DeadlineAfter(env.now, timeoutMs))), Silent)
  {
    assert key in h.reg.lists ==> h.reg.lists[key] != [];
  }

  lemma WaitValid(h: Handler, required: nat, timeoutMs: Option<nat>, client: Client, env: Env)
    requires Valid(h) && CmdEnabled(h, Wait(required, timeoutMs), client, env)
    ensures Valid(WaitOp(h, required, timeoutMs, client, env).0)
  {
    var asked := h.(queue := h.queue + ToAll(env.slaves, GetAck));
    FeedAddsNone(h.queue, env.slaves, GetAck);
    assert Valid(asked);
    if required > 0 && env.offset != 0 {
      ParkValid(asked, env.now, WaitReq(client, required, 0, DeadlineAfter(env.now, timeoutMs), env.offset, env.slaves));
    }
  }

  /** Only the WATCH and MULTI state and what the invariant does not mention may differ. */
  lemma SameValid(h: Handler, h': Handler)
    requires Valid(h) && TxnsFit(h'.reg.txns)
    requires h'.reg == h.reg.(txns := h'.reg.txns, watches := h'.reg.watches)
    requires h'.parked == h.parked && h'.asked == h.asked && h'.answers == h.answers
    requires Addressees(h'.queue) == Addressees(h.queue)
    ensures Valid(h')
  {
  }

  lemma XreadValid(h: Handler, count: Option<nat>, blockMs: Option<nat>, cursors: seq<Cursor>, client: Client, env: Env)
    requires Valid(h) && CmdEnabled(h, Xread(count, blockMs, cursors), client, env)
    ensures Valid(XreadOp(h, count, blockMs, cursors, client, env).0)
  {
    var h' := XreadOp(h, count, blockMs, cursors, client, env).0;
    hide Valid;
    if h' != h {
      var deadline := DeadlineAfter(env.now, if blockMs == Some(0) then None else blockMs);
      ParkValid(h, env.now, StreamReq(client, count, Resolve(h.data, cursors), deadline));
    }
  }

  lemma DataValid(h: Handler, data: Data)
    requires Valid(h)
    ensures Valid(h.(data := data))
  {
    SameValid(h, h.(data := data));
  }

  /** WATCH and MULTI state may change, as long as what is queued may be. */
  lemma TxnValid(h: Handler, txns: map<Client, seq<Queued>>, watches: map<Key, map<Client, bool>>)
    requires Valid(h) && TxnsFit(txns)
    ensures Valid(h.(reg := h.reg.(txns := txns, watches := watches)))
  {
    SameValid(h, h.(reg := h.reg.(txns := txns, watches := watches)));
  }

  lemma BlpopValid(h: Handler, key: Key, timeoutMs: Option<nat>, client: Client, env: Env)
    requires Valid(h) && CmdEnabled(h, Blpop(key, timeoutMs), client, env)
    ensures Valid(BlpopOp(h, key, timeoutMs, client, env).0)
  {
    BlpopParks(h, key, timeoutMs, client, env);
    hide Valid, BlpopOp, Park;
    if Parks(h, Blpop(key, timeoutMs), env) {
      ParkValid(h, env.now, ListReq(client, key, DeadlineAfter(env.now, timeoutMs)));
    }
  }

  lemma DispatchValid(h: Handler, cmd: Cmd, client: Client, env: Env)
    requires Valid(h) && CmdEnabled(h, cmd, client, env) && (cmd.Exec? ==> client !in h.reg.txns)
    ensures Valid(Dispatch(h, cmd, client, env).0)
  {
    assert TxnsFit(h.reg.txns);
    hide Valid, DataOp, BlpopOp, XreadOp, WaitOp, AckOp, Watched, Unwatched, NoDup, Park;
    if IsDataCmd(cmd) {
      DataValid(h, DataOp(h.data, cmd, env.now).0);
    } else {
      match cmd
      case Blpop(key, timeoutMs) => BlpopValid(h, key, timeoutMs, client, env);
      case Xread(count, blockMs, cursors) => XreadValid(h, count, blockMs, cursors, client, env);
      case Wait(required, timeoutMs) => WaitValid(h, required, timeoutMs, client, env);
      case ReplconfAck(offset) => AckValid(h, client, offset);
      case ReplconfGetAck(_) =>
      case Exec =>
      case Multi => TxnValid(h, h.reg.txns[client := []], h.reg.watches);
      case Discard => TxnValid(h, h.reg.txns - {client}, Unwatched(h.reg.watches, client));
      case Watch(keys) => TxnValid(h, h.reg.txns, Watched(h.reg.watches, keys, client));
      case Unwatch => TxnValid(h, h.reg.txns, Unwatched(h.reg.watches, client));
    }
  }

  function Marked(h: Handler, cmd: Cmd): Handler {
    h.(reg := h.reg.(watches := Dirtied(h.reg.watches, cmd)))
  }

  lemma MarkedValid(h: Handler, cmd: Cmd)
    requires Valid(h)
    ensures Valid(Marked(h, cmd))
  {
    SameValid(h, Marked(h, cmd));
  }

  lemma MarkedEnabled(h: Handler, cmd: Cmd, client: Client, env: Env)
    ensures CmdEnabled(Marked(h, cmd), cmd, client, env) == CmdEnabled(h, cmd, client, env)
  {
    hide Dirtied, ReadPages, Resolve;
  }

  /** Marking, dispatch, and after a reply what settles it. */
  lemma ExecuteParts(h: Handler, cmd: Cmd, buf: Bytes, client: Client, env: Env)
    requires cmd.Exec? ==> client !in h.reg.txns
    ensures var (dispatched, out) := Dispatch(Marked(h, cmd), cmd, client, env);
            Execute(h, cmd, buf, client, env) == (if out.Reply? then Settle(dispatched, cmd, buf, env) else dispatched, out)
  {
    hide Dispatch, Dirtied, Settle;
  }

  lemma SettleKeeps(h: Handler, cmd: Cmd, buf: Bytes, env: Env)
    ensures var h' := Settle(h, cmd, buf, env);
            h'.reg == h.reg && h'.asked == h.asked && h'.data == h.data && h'.flagList == IsFlagList(cmd) && h'.flagStream == IsFlagStream(cmd)
  {
    hide ToAll, IsFlagList, IsFlagStream, ToBeBroadcast;
  }

  lemma SettleValid(h: Handler, cmd: Cmd, buf: Bytes, env: Env)
    requires Valid(h)
    ensures Valid(Settle(h, cmd, buf, env))
  {
    hide Consistent, AnsweredOnce, Addressees, Owners, Unmet, ToAll;
    FeedAddsNone(h.queue, env.slaves, Raw(buf));
    SameValid(h, Settle(h, cmd, buf, env));
  }

  lemma ExecuteValid(h: Handler, cmd: Cmd, buf: Bytes, client: Client, env: Env)
    requires Valid(h) && CmdEnabled(h, cmd, client, env) && (cmd.Exec? ==> client !in h.reg.txns)
    ensures Valid(Execute(h, cmd, buf, client, env).0)
  {
    hide Consistent, AnsweredOnce, Addressees, Owners, Unmet, Dirtied, Dispatch, Settle;
    SameValid(h, Marked(h, cmd));
    hide Valid;
    DispatchValid(Marked(h, cmd), cmd, client, env);
    SettleValid(Dispatch(Marked(h, cmd), cmd, client, env).0, cmd, buf, env);
  }

  // ----- A batch

  lemma QueueableNoExec(queue: seq<Queued>)
    requires AllQueueable(queue)
    ensures NoExec(queue)
  {
  }

  /** Every command of the batch is enabled when its turn comes. */
  ghost predicate BatchEnabled(h: Handler, queue: seq<Queued>, client: Client, envs: seq<Env>)
    requires NoExec(queue) && |envs| == |queue|
  {
    queue == [] ||
    var n := |queue| - 1;
    && BatchEnabled(h, queue[..n], client, envs[..n])
    && CmdEnabled(ExecuteAll(h, queue[..n], client, envs[..n]).0, queue[n].cmd, client, envs[n])
  }

  lemma {:induction false} BatchValid(h: Handler, queue: seq<Queued>, client: Client, envs: seq<Env>)
    requires Valid(h) && NoExec(queue) && |envs| == |queue| && BatchEnabled(h, queue, client, envs)
    ensures Valid(ExecuteAll(h, queue, client, envs).0)
  {
    if queue != [] {
      hide Valid, Execute;
      var n := |queue| - 1;
      BatchValid(h, queue[..n], client, envs[..n]);
      ExecuteValid(ExecuteAll(h, queue[..n], client, envs[..n]).0, queue[n].cmd, queue[n].buf, client, envs[n]);
    }
  }

  function Drained(h: Handler, client: Client): Handler {
    h.(reg := h.reg.(txns := h.reg.txns[client := []]))
  }

  lemma EndTxnValid(h: Handler, client: Client)
    requires Valid(h)
    ensures Valid(EndTxn(h, client))
  {
    SameValid(h, EndTxn(h, client));
  }

  lemma ExecValid(h: Handler, client: Client, envs: seq<Env>)
    requires Valid(h) && client in h.reg.txns && |envs| == |h.reg.txns[client]| && NoExec(h.reg.txns[client])
    requires !IsAnyDirty(h.reg.watches, client) ==> BatchEnabled(Drained(h, client), h.reg.txns[client], client, envs)
    ensures Valid(ExecOp(h, client, envs).0)
  {
    if IsAnyDirty(h.reg.watches, client) {
      EndTxnValid(h, client);
    } else {
      SameValid(h, Drained(h, client));
      hide Valid, EndTxn, ExecuteAll;
      BatchValid(Drained(h, client), h.reg.txns[client], client, envs);
      EndTxnValid(ExecuteAll(Drained(h, client), h.reg.txns[client], client, envs).0, client);
    }
  }

  // ----- Events

  /** A request, the two sweeps at the end of a loop, or the timer. */
  datatype Event =
    | Request(client: Client, cmd: Option<Cmd>, buf: Bytes, envs: seq<Env>)
    | ListSweep(keys: seq<Key>)
    | StreamSweep(readers: seq<Ts>)
    | Timer(deadline: nat)

  /** What the surroundings guarantee: no WAIT or ACK inside MULTI, and a timer that fires for the nearest deadline. */
  ghost predicate Enabled(h: Handler, e: Event)
    requires Valid(h)
  {
    match e
    case Request(client, cmd, _, envs) =>
      && |envs| == EnvsNeeded(h, cmd, client)
      && (cmd.Some? ==>
            if client !in h.reg.txns then CmdEnabled(h, cmd.value, client, envs[0])
            else
              && !cmd.value.Wait? && !cmd.value.ReplconfAck?
              && (cmd.value.Exec? && !IsAnyDirty(h.reg.watches, client) ==>
                    (QueueableNoExec(h.reg.txns[client]); BatchEnabled(Drained(h, client), h.reg.txns[client], client, envs))))
    case ListSweep(keys) => Enumerates(keys, h.reg.lists.Keys)
    case StreamSweep(readers) => Enumerates(readers, h.reg.streams)
    case Timer(deadline) => IsNearest(h.reg, deadline)
  }

  ghost function Apply(h: Handler, e: Event): (h': Handler)
    requires Valid(h) && Enabled(h, e)
    ensures Valid(h')
  {
    ApplyValid(h, e);
    Applied(h, e)
  }

  ghost function Applied(h: Handler, e: Event): Handler
    requires Valid(h) && Enabled(h, e)
  {
    match e
    case Request(client, cmd, buf, envs) =>
      assert client in h.reg.txns ==> AllQueueable(h.reg.txns[client]);
      Handle(h, cmd, buf, client, envs).0
    case ListSweep(keys) => SweepLists(h, keys)
    case StreamSweep(readers) => SweepStreams(h, readers)
    case Timer(deadline) => Expire(h, deadline)
  }

  lemma RequestValid(h: Handler, client: Client, cmd: Option<Cmd>, buf: Bytes, envs: seq<Env>)
    requires Valid(h) && Enabled(h, Request(client, cmd, buf, envs))
    requires client in h.reg.txns ==> NoExec(h.reg.txns[client])
    ensures Valid(Handle(h, cmd, buf, client, envs).0)
  {
    match cmd
    case None =>
    case Some(c) =>
      if client !in h.reg.txns {
        ExecuteValid(h, c, buf, client, envs[0]);
      } else if c.Exec? {
        ExecValid(h, client, envs);
      } else if c.Discard? {
        EndTxnValid(h, client);
      } else if !c.Watch? {
        assert AllQueueable(h.reg.txns[client]);
        SameValid(h, Enqueue(h, client, c, buf));
      }
  }

  lemma ExpireKeepsData(h: Handler, d: nat)
    requires d in h.reg.deadlines
    ensures Expire(h, d).data == h.data
  {
  }

  lemma ApplyValid(h: Handler, e: Event)
    requires Valid(h) && Enabled(h, e)
    ensures Valid(Applied(h, e))
  {
    match e
    case Request(client, cmd, buf, envs) =>
      assert client in h.reg.txns ==> AllQueueable(h.reg.txns[client]);
      hide Handle, BatchEnabled, CmdEnabled;
      RequestValid(h, client, cmd, buf, envs);
    case ListSweep(keys) => SweepListsValid(h, keys);
    case StreamSweep(readers) => SweepStreamsValid(h, readers);
    case Timer(deadline) => ExpireValid(h, deadline);
  }

  // ----- Runs

  /** Every event of the run is enabled when it happens. */
  ghost predicate Possible(events: seq<Event>)
    decreases |events|, 0
  {
    events == [] ||
    var n := |events| - 1;
    Possible(events[..n]) && Enabled(After(events[..n]), events[n])
  }

  lemma StartValid()
    ensures Valid(START)
  {
    forall key: Key
      ensures QueueOf(EMPTY.store, [], key) == []
    {
    }
  }

  /** The state a run ends in: the invariant holds in each. */
  ghost function After(events: seq<Event>): (h: Handler)
    requires Possible(events)
    ensures Valid(h)
    decreases |events|, 1
  {
    if events == [] then StartValid(); START
    else Apply(After(events[..|events| - 1]), events[|events| - 1])
  }

  /** In every run each request is answered at most once, to its own client, and none is lost. */
  lemma EveryRunAnswersOnce(events: seq<Event>)
    requires Possible(events)
    ensures var h := After(events);
            && Consistent(h.reg, h.parked)
            && |h.answers| + |h.reg.store| == |h.parked|
            && NoDup(h.answers)
            && (forall t :: t in h.parked <==> (t in h.answers) != (t in h.reg.store))
            && |Addressees(h.queue)| == |h.answers|
            && (forall i :: 0 <= i < |h.answers| ==>
                  h.answers[i] in h.asked && Addressees(h.queue)[i] == h.asked[h.answers[i]])
  {
    var h := After(events);
    Conservation(h);
    OwnersSize(h.asked, h.answers);
  }
}
