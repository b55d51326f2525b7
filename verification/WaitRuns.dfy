/** WAIT over whole runs: a count is a count of replicas that have acknowledged since. */
module WaitRuns {
  import opened Base
  import opened Commands
  import opened Registry
  import opened RegistryInvariant
  import opened Store
  import opened Handler
  import opened Blocking
  import opened Sweeps
  import opened StreamSweeps
  import opened Runs

  // ----- What a step does to debts

  /** No WAIT comes, and the debts of those that stay are the same. */
  ghost predicate DebtsKept(r: Reg, r': Reg) {
    forall t :: IsWait(r'.store, t) ==> IsWait(r.store, t) && WaitKept(r, r', t)
  }

  ghost predicate WaitKept(r: Reg, r': Reg, t: Ts)
    requires IsWait(r.store, t) && IsWait(r'.store, t)
  {
    && r'.store[t] == r.store[t]
    && forall s :: Owes(r'.acks, s, r.store[t].client) <==> Owes(r.acks, s, r.store[t].client)
  }

  lemma KeptTwice(a: Reg, b: Reg, c: Reg)
    requires DebtsKept(a, b) && DebtsKept(b, c)
    ensures DebtsKept(a, c)
  {
    hide Owes;
    forall t | IsWait(c.store, t)
      ensures IsWait(a.store, t) && WaitKept(a, c, t)
    {
      assert WaitKept(b, c, t) && WaitKept(a, b, t);
    }
  }

  lemma RemovedKeeps(r: Reg, parked: seq<Ts>, t: Ts)
    requires Consistent(r, parked)
    ensures DebtsKept(r, Registry.Removed(r, t))
  {
    var r' := Registry.Removed(r, t);
    if t in r.store {
      var e := r.store[t];
      assert WaitsAgree(r.store, r.waits) && DebtsTidy(r.acks);
      if e.WaitReq? {
        DebtsForgiven(r.acks, e.slaves, e.client);
        OthersOwe(r, t);
      }
      hide Consistent, ListsWithout, AcksWithout, WaitsAgree, Owes;
      forall u | IsWait(r'.store, u)
        ensures IsWait(r.store, u) && WaitKept(r, r', u)
      {
        assert u != t;
      }
    }
  }

  /** A client has one WAIT. */
  lemma OthersOwe(r: Reg, t: Ts)
    requires WaitsAgree(r.store, r.waits) && IsWait(r.store, t)
    ensures forall u :: IsWait(r.store, u) && u != t ==> r.store[u].client != r.store[t].client
  {
  }

  lemma {:induction false} RemovedAllKeeps(r: Reg, parked: seq<Ts>, ts: seq<Ts>)
    requires Consistent(r, parked)
    ensures DebtsKept(r, RemovedAll(r, ts))
  {
    if ts != [] {
      var n := |ts| - 1;
      RemovedAllKeeps(r, parked, ts[..n]);
      RemoveAllConsistent(r, parked, ts[..n]);
      hide Consistent, DebtsKept, Registry.Removed;
      RemovedKeeps(RemovedAll(r, ts[..n]), parked, ts[n]);
      KeptTwice(r, RemovedAll(r, ts[..n]), RemovedAll(r, ts));
    }
  }

  lemma Untouched(r: Reg, r': Reg)
    requires r'.store == r.store && r'.acks == r.acks
    ensures DebtsKept(r, r')
  {
  }

  /** Commands other than WAIT and ACK. */
  lemma DispatchKeeps(h: Handler, cmd: Cmd, client: Client, env: Env)
    requires (cmd.Exec? ==> client !in h.reg.txns) && !cmd.Wait? && !cmd.ReplconfAck?
    ensures DebtsKept(h.reg, Dispatch(h, cmd, client, env).0.reg)
  {
    hide DataOp, AckOp, WaitOp, BlpopOp, XreadOp, Watched, Unwatched, DebtsKept;
    var h' := Dispatch(h, cmd, client, env).0;
    if cmd.Blpop? || cmd.Xread? {
      ParkingKeeps(h, cmd, client, env);
    } else {
      assert IsDataCmd(cmd) ==> h'.reg == h.reg;
      Untouched(h.reg, h'.reg);
    }
  }

  lemma ParkingKeeps(h: Handler, cmd: Cmd, client: Client, env: Env)
    requires cmd.Blpop? || cmd.Xread?
    ensures DebtsKept(h.reg, Dispatch(h, cmd, client, env).0.reg)
  {
    hide DataOp, AckOp, WaitOp, MultiOp, DiscardOp, ReadPages, Watched, Unwatched, Resolve, Park, DebtsKept;
    Untouched(h.reg, h.reg);
    match cmd
    case Blpop(key, timeoutMs) =>
      ParkKeeps(h, env.now, ListReq(client, key, DeadlineAfter(env.now, timeoutMs)));
    case Xread(count, blockMs, cursors) =>
      ParkKeeps(h, env.now, StreamReq(client, count, Resolve(h.data, cursors),
                                      DeadlineAfter(env.now, if blockMs == Some(0) then None else blockMs)));
  }

  lemma ParkKeeps(h: Handler, t: Ts, e: RequestEntry)
    requires !e.WaitReq?
    ensures DebtsKept(h.reg, Park(h, t, e).reg)
  {
    hide FreeSlot, ListsWith, AcksWith, Owes;
  }

  lemma ExecuteKeeps(h: Handler, cmd: Cmd, buf: Bytes, client: Client, env: Env)
    requires (cmd.Exec? ==> client !in h.reg.txns) && !cmd.Wait? && !cmd.ReplconfAck?
    ensures DebtsKept(h.reg, Execute(h, cmd, buf, client, env).0.reg)
  {
    var marked := Marked(h, cmd);
    DispatchKeeps(marked, cmd, client, env);
    SameDebts(h.reg, marked.reg, Dispatch(marked, cmd, client, env).0.reg);
    ExecuteParts(h, cmd, buf, client, env);
    SettleKeeps(Dispatch(marked, cmd, client, env).0, cmd, buf, env);
    hide Dispatch, Dirtied, DebtsKept, Execute, Settle;
  }

  lemma SameDebts(r: Reg, marked: Reg, r': Reg)
    requires marked.store == r.store && marked.acks == r.acks && DebtsKept(marked, r')
    ensures DebtsKept(r, r')
  {
    hide Owes;
    forall t | IsWait(r'.store, t)
      ensures IsWait(r.store, t) && WaitKept(r, r', t)
    {
      assert WaitKept(marked, r', t);
    }
  }

  lemma {:induction false} BatchKeeps(h: Handler, queue: seq<Queued>, client: Client, envs: seq<Env>)
    requires AllQueueable(queue) && NoExec(queue) && |envs| == |queue|
    ensures DebtsKept(h.reg, ExecuteAll(h, queue, client, envs).0.reg)
  {
    if queue != [] {
      hide Execute, Owes;
      var n := |queue| - 1;
      BatchKeeps(h, queue[..n], client, envs[..n]);
      var before := ExecuteAll(h, queue[..n], client, envs[..n]).0;
      assert Queueable(queue[n].cmd);
      ExecuteKeeps(before, queue[n].cmd, queue[n].buf, client, envs[n]);
      KeptTwice(h.reg, before.reg, ExecuteAll(h, queue, client, envs).0.reg);
    }
  }

  // ----- What has been heard

  datatype Acknowledgement = Acknowledgement(from: Client, offset: int)

  /** The ACK an event brings. */
  function AckOf(h: Handler, e: Event): Option<Acknowledgement> {
    match e
    case Request(client, Some(ReplconfAck(offset)), _, _) =>
      if client in h.reg.txns then None else Some(Acknowledgement(client, offset))
    case _ => None
  }

  /** The clients that have acknowledged at least the offset of the WAIT `t` while it was parked. */
  ghost function Heard(events: seq<Event>, t: Ts): set<Client>
    requires Possible(events)
  {
    if events == [] then {}
    else
      var n := |events| - 1;
      var h := After(events[..n]);
      if !IsWait(h.reg.store, t) then {}
      else Heard(events[..n], t) + NewlyHeard(h, events[n], t)
  }

  function NewlyHeard(h: Handler, e: Event, t: Ts): set<Client>
    requires IsWait(h.reg.store, t)
  {
    match AckOf(h, e)
    case None => {}
    case Some(ack) => if ack.offset >= h.reg.store[t].offset then {ack.from} else {}
  }

  /** What an event does to a WAIT that is parked after it. */
  ghost predicate WaitMoved(h: Handler, e: Event, h': Handler, t: Ts)
    requires IsWait(h'.reg.store, t)
  {
    var now := h'.reg.store[t];
    if IsWait(h.reg.store, t) then
      var was := h.reg.store[t];
      && now.client == was.client && now.slaves == was.slaves && now.offset == was.offset
      && forall s :: s in now.slaves ==>
           (Owes(h'.reg.acks, s, now.client) <==> Owes(h.reg.acks, s, now.client) && s !in NewlyHeard(h, e, t))
    else forall s :: s in now.slaves ==> Owes(h'.reg.acks, s, now.client)
  }

  lemma KeptMoves(h: Handler, e: Event, h': Handler, t: Ts)
    requires DebtsKept(h.reg, h'.reg) && AckOf(h, e).None? && IsWait(h'.reg.store, t)
    ensures WaitMoved(h, e, h', t)
  {
    assert WaitKept(h.reg, h'.reg, t);
    hide Owes;
  }

  // ----- WAIT and ACK

  lemma NewWaitOwed(r: Reg, t: Ts, e: RequestEntry)
    requires WaitsAgree(r.store, r.waits) && AcksAgree(r.store, r.waits, r.acks)
    requires t !in r.store && e.WaitReq? && e.client !in r.waits
    ensures var r' := Inserted(r, t, e.deadline, e);
            && IsWait(r'.store, t) && r'.store[t].client == e.client && r'.store[t].slaves == e.slaves
            && (forall s :: s in e.slaves ==> Owes(r'.acks, s, e.client))
            && forall u :: IsWait(r'.store, u) && u != t ==> IsWait(r.store, u) && WaitKept(r, r', u)
  {
    NewDebts(r.store, r.waits, r.acks, e.slaves, e.client);
    hide FreeSlot, AcksWith, AcksAgree, Owes;
    var r' := Inserted(r, t, e.deadline, e);
    forall u | IsWait(r'.store, u) && u != t
      ensures IsWait(r.store, u) && WaitKept(r, r', u)
    {
      assert IsWait(r.store, u) && r.store[u].client != e.client;
    }
  }

  lemma WaitMoves(h: Handler, cmd: Cmd, buf: Bytes, client: Client, env: Env, e: Event, t: Ts)
    requires Valid(h) && CmdEnabled(h, cmd, client, env) && cmd.Wait? && AckOf(h, e).None?
    requires IsWait(Execute(h, cmd, buf, client, env).0.reg.store, t)
    ensures WaitMoved(h, e, Execute(h, cmd, buf, client, env).0, t)
  {
    var h' := Execute(h, cmd, buf, client, env).0;
    assert WaitsAgree(h.reg.store, h.reg.waits) && AcksAgree(h.reg.store, h.reg.waits, h.reg.acks);
    WaitIsExecuted(h, cmd, buf, client, env);
    if Parks(h, cmd, env) {
      assert env.now !in h.reg.store && client !in h.reg.waits;
      hide *;
      ParkedMoves(h, e, h', env.now, EntryOf(cmd, client, env), t);
    } else {
      hide *;
      UnparkedMoves(h, e, h', t);
    }
  }

  lemma ParkedMoves(h: Handler, e: Event, h': Handler, now: Ts, entry: RequestEntry, t: Ts)
    requires WaitsAgree(h.reg.store, h.reg.waits) && AcksAgree(h.reg.store, h.reg.waits, h.reg.acks)
    requires now !in h.reg.store && entry.WaitReq? && entry.client !in h.reg.waits
    requires h'.reg == Inserted(h.reg, now, entry.deadline, entry) && AckOf(h, e).None? && IsWait(h'.reg.store, t)
    ensures WaitMoved(h, e, h', t)
  {
    NewWaitOwed(h.reg, now, entry);
    hide Inserted, Owes, WaitsAgree, AcksAgree;
    if t != now {
      assert WaitKept(h.reg, h'.reg, t);
    }
  }

  lemma UnparkedMoves(h: Handler, e: Event, h': Handler, t: Ts)
    requires h'.reg == h.reg && AckOf(h, e).None? && IsWait(h'.reg.store, t)
    ensures WaitMoved(h, e, h', t)
  {
  }

  function EntryOf(cmd: Cmd, client: Client, env: Env): (e: RequestEntry)
    requires cmd.Wait?
    ensures e.WaitReq? && e.client == client
  {
    WaitReq(client, cmd.required, 0, DeadlineAfter(env.now, cmd.timeoutMs), env.offset, env.slaves)
  }

  lemma WaitIsExecuted(h: Handler, cmd: Cmd, buf: Bytes, client: Client, env: Env)
    requires cmd.Wait?
    ensures Execute(h, cmd, buf, client, env).0.reg
         == if Parks(h, cmd, env) then Inserted(h.reg, env.now, EntryOf(cmd, client, env).deadline, EntryOf(cmd, client, env)) else h.reg
  {
    hide ToAll, Inserted;
  }

  lemma CountingMoves(r: Reg, slave: Client, offset: int, c: Counting, t: Ts, s: Client)
    requires WaitsAgree(r.store, r.waits) && DebtsTidy(r.acks) && slave in r.acks
    requires Counted(r.store, r.waits, r.acks[slave], offset, c) && IsWait(r.store, t)
    ensures Owes(AfterCounting(r, slave, c).acks, s, r.store[t].client)
       <==> Owes(r.acks, s, r.store[t].client) && !(s == slave && offset >= r.store[t].offset)
  {
    DebtsPaidIs(r.acks, slave, c.acked);
    hide DebtsPaid, DebtsTidy, NoDup, Acked, Completes, ExactReply;
    assert r.waits[r.store[t].client] == t;
  }

  lemma AckMoves(h: Handler, slave: Client, offset: int, e: Event, t: Ts)
    requires Valid(h) && AckOf(h, e) == Some(Acknowledgement(slave, offset))
    requires IsWait(AckOp(h, slave, offset).0.reg.store, t)
    ensures WaitMoved(h, e, AckOp(h, slave, offset).0, t)
  {
    var h' := AckOp(h, slave, offset).0;
    if slave !in h.reg.acks {
      NoReplies(h, slave, offset);
      hide Valid, AckOp;
      assert h'.reg == h.reg;
    } else {
      hide *;
      AckDebts(h, slave, offset, t);
      Moved(h, e, h', slave, offset, t);
    }
  }

  /** A WAIT before and after an ACK. */
  ghost predicate PaidBy(r: Reg, r': Reg, slave: Client, offset: int, t: Ts) {
    && IsWait(r.store, t) && IsWait(r'.store, t)
    && (exists clients :: r'.store[t] == Acked(r.store[t], clients, offset))
    && forall s :: Owes(r'.acks, s, r.store[t].client)
              <==> Owes(r.acks, s, r.store[t].client) && !(s == slave && offset >= r.store[t].offset)
  }

  lemma Moved(h: Handler, e: Event, h': Handler, slave: Client, offset: int, t: Ts)
    requires AckOf(h, e) == Some(Acknowledgement(slave, offset)) && PaidBy(h.reg, h'.reg, slave, offset, t)
    ensures WaitMoved(h, e, h', t)
  {
    hide Owes;
  }

  lemma AckDebts(h: Handler, slave: Client, offset: int, t: Ts)
    requires Valid(h) && slave in h.reg.acks && IsWait(AckOp(h, slave, offset).0.reg.store, t)
    ensures PaidBy(h.reg, AckOp(h, slave, offset).0.reg, slave, offset, t)
  {
    var r, r' := h.reg, AckOp(h, slave, offset).0.reg;
    var c := CountAll(r.store, r.waits, r.acks[slave], offset);
    var counted := AfterCounting(r, slave, c);
    var done := TimestampsOf(r.waits, c.served);
    assert r' == RemovedAll(counted, done);
    assert WaitsAgree(r.store, r.waits) && DebtsTidy(r.acks) && Consistent(r, h.parked) && Unmet(r.store);
    hide *;
    CountedDebts(r, h.parked, slave, offset, r', t);
  }

  lemma CountedDebts(r: Reg, parked: seq<Ts>, slave: Client, offset: int, r': Reg, t: Ts)
    requires Consistent(r, parked) && Unmet(r.store) && WaitsAgree(r.store, r.waits) && DebtsTidy(r.acks) && slave in r.acks
    requires var c := CountAll(r.store, r.waits, r.acks[slave], offset);
             r' == RemovedAll(AfterCounting(r, slave, c), TimestampsOf(r.waits, c.served))
    requires IsWait(r'.store, t)
    ensures PaidBy(r, r', slave, offset, t)
  {
    var c := CountAll(r.store, r.waits, r.acks[slave], offset);
    CountingConsistent(r, parked, slave, offset);
    RemovedAllKeeps(AfterCounting(r, slave, c), parked, TimestampsOf(r.waits, c.served));
    hide *;
    CountedKept(r, slave, offset, c, r', t);
  }

  lemma CountedKept(r: Reg, slave: Client, offset: int, c: Counting, r': Reg, t: Ts)
    requires WaitsAgree(r.store, r.waits) && DebtsTidy(r.acks) && slave in r.acks
    requires Counted(r.store, r.waits, r.acks[slave], offset, c)
    requires DebtsKept(AfterCounting(r, slave, c), r') && IsWait(r'.store, t)
    ensures PaidBy(r, r', slave, offset, t)
  {
    var counted := AfterCounting(r, slave, c);
    assert IsWait(counted.store, t) && WaitKept(counted, r', t);
    assert c.store[t] == Acked(r.store[t], r.acks[slave], offset) && IsWait(r.store, t);
    CountedOwe(r, slave, offset, c, t);
    AckedSame(r.store[t], r.acks[slave], offset);
    hide Counted, DebtsKept, WaitsAgree, DebtsTidy, Acked, Owes, DebtsPaid;
  }

  lemma AckedSame(e: RequestEntry, clients: seq<Client>, offset: int)
    requires e.WaitReq?
    ensures var e' := Acked(e, clients, offset);
            e'.WaitReq? && e'.client == e.client && e'.slaves == e.slaves && e'.offset == e.offset && e'.required == e.required
  {
  }

  lemma CountedOwe(r: Reg, slave: Client, offset: int, c: Counting, t: Ts)
    requires WaitsAgree(r.store, r.waits) && DebtsTidy(r.acks) && slave in r.acks
    requires Counted(r.store, r.waits, r.acks[slave], offset, c) && IsWait(r.store, t)
    ensures forall s :: Owes(AfterCounting(r, slave, c).acks, s, r.store[t].client)
                   <==> Owes(r.acks, s, r.store[t].client) && !(s == slave && offset >= r.store[t].offset)
  {
    var e := r.store[t];
    assert e.WaitReq?;
    hide *;
    forall s
      ensures Owes(AfterCounting(r, slave, c).acks, s, e.client) <==> Owes(r.acks, s, e.client) && !(s == slave && offset >= e.offset)
    {
      CountingMoves(r, slave, offset, c, t, s);
    }
  }

  // ----- Events

  lemma ExecKeeps(h: Handler, client: Client, envs: seq<Env>)
    requires client in h.reg.txns && AllQueueable(h.reg.txns[client]) && NoExec(h.reg.txns[client]) && |envs| == |h.reg.txns[client]|
    ensures DebtsKept(h.reg, ExecOp(h, client, envs).0.reg)
  {
    if !IsAnyDirty(h.reg.watches, client) {
      var drained := Runs.Drained(h, client);
      BatchKeeps(drained, h.reg.txns[client], client, envs);
      var h' := ExecuteAll(drained, h.reg.txns[client], client, envs).0;
      SameDebts(h.reg, drained.reg, h'.reg);
      hide ExecuteAll, IsAnyDirty, Owes, Unwatched;
      SameAfter(h.reg, h'.reg, EndTxn(h', client).reg);
    }
    hide ExecuteAll, IsAnyDirty, Owes, Unwatched;
  }

  lemma SameAfter(r: Reg, r': Reg, ended: Reg)
    requires ended.store == r'.store && ended.acks == r'.acks && DebtsKept(r, r')
    ensures DebtsKept(r, ended)
  {
    hide Owes;
    forall t | IsWait(ended.store, t)
      ensures IsWait(r.store, t) && WaitKept(r, ended, t)
    {
      assert WaitKept(r, r', t);
    }
  }

  /** Inside MULTI. */
  lemma QueuedKeeps(h: Handler, client: Client, cmd: Option<Cmd>, buf: Bytes, envs: seq<Env>)
    requires client in h.reg.txns && AllQueueable(h.reg.txns[client]) && NoExec(h.reg.txns[client])
    requires |envs| == EnvsNeeded(h, cmd, client)
    ensures DebtsKept(h.reg, Handle(h, cmd, buf, client, envs).0.reg)
  {
    hide ExecOp, DebtsKept, Unwatched, IsAnyDirty, NoExec, AllQueueable;
    if cmd == Some(Exec) {
      ExecKeeps(h, client, envs);
    } else {
      NotExecKeeps(h, client, cmd, buf, envs);
    }
  }

  lemma NotExecKeeps(h: Handler, client: Client, cmd: Option<Cmd>, buf: Bytes, envs: seq<Env>)
    requires client in h.reg.txns && NoExec(h.reg.txns[client]) && cmd != Some(Exec)
    requires |envs| == EnvsNeeded(h, cmd, client)
    ensures DebtsKept(h.reg, Handle(h, cmd, buf, client, envs).0.reg)
  {
    hide DebtsKept, NoExec, EndTxn, Enqueue;
    EndKeeps(h, client);
    Untouched(h.reg, h.reg);
    if cmd.Some? {
      EnqueueKeeps(h, client, cmd.value, buf);
    }
  }

  lemma EndKeeps(h: Handler, client: Client)
    ensures DebtsKept(h.reg, EndTxn(h, client).reg)
  {
    Untouched(h.reg, EndTxn(h, client).reg);
    hide DebtsKept, Unwatched;
  }

  lemma EnqueueKeeps(h: Handler, client: Client, cmd: Cmd, buf: Bytes)
    requires client in h.reg.txns
    ensures DebtsKept(h.reg, Enqueue(h, client, cmd, buf).reg)
  {
    Untouched(h.reg, Enqueue(h, client, cmd, buf).reg);
    hide DebtsKept;
  }

  lemma RequestMoves(h: Handler, e: Event, t: Ts)
    requires Valid(h) && e.Request? && Enabled(h, e) && IsWait(Apply(h, e).reg.store, t)
    ensures WaitMoved(h, e, Apply(h, e), t)
  {
    var client, cmd, buf, envs := e.client, e.cmd, e.buf, e.envs;
    var h' := Apply(h, e);
    assert client in h.reg.txns ==> AllQueueable(h.reg.txns[client]);
    assert h' == Handle(h, cmd, buf, client, envs).0;
    hide Execute, WaitMoved, DebtsKept, BatchEnabled;
    if client in h.reg.txns {
      hide Valid;
      QueuedKeeps(h, client, cmd, buf, envs);
      KeptMoves(h, e, h', t);
    } else if cmd.None? {
      NothingMoves(h, e, h', t);
    } else {
      AloneMoves(h, e, t);
    }
  }

  lemma NothingMoves(h: Handler, e: Event, h': Handler, t: Ts)
    requires h' == h && AckOf(h, e).None? && IsWait(h'.reg.store, t)
    ensures WaitMoved(h, e, h', t)
  {
  }

  /** Outside MULTI. */
  lemma AloneMoves(h: Handler, e: Event, t: Ts)
    requires Valid(h) && e.Request? && e.cmd.Some? && e.client !in h.reg.txns && Enabled(h, e)
    requires var h' := Execute(h, e.cmd.value, e.buf, e.client, e.envs[0]).0; IsWait(h'.reg.store, t)
    ensures var h' := Execute(h, e.cmd.value, e.buf, e.client, e.envs[0]).0; WaitMoved(h, e, h', t)
  {
    var cmd, env := e.cmd.value, e.envs[0];
    var h' := Execute(h, cmd, e.buf, e.client, env).0;
    hide WaitMoved, DebtsKept, CmdEnabled;
    if cmd.ReplconfAck? {
      AckIsExecuted(h, cmd.ackOffset, e.buf, e.client, env);
      hide Execute;
      AckMoves(h, e.client, cmd.ackOffset, e, t);
    } else if cmd.Wait? {
      hide Execute;
      WaitMoves(h, cmd, e.buf, e.client, env, e, t);
    } else {
      hide Execute, Valid;
      ExecuteKeeps(h, cmd, e.buf, e.client, env);
      KeptMoves(h, e, h', t);
    }
  }

  lemma AckIsExecuted(h: Handler, offset: int, buf: Bytes, slave: Client, env: Env)
    ensures Execute(h, ReplconfAck(offset), buf, slave, env).0 == AckOp(h, slave, offset).0
  {
    assert Marked(h, ReplconfAck(offset)) == h;
    assert AckOp(h, slave, offset).1 == Silent;
    hide AckOp, Dirtied;
  }

  lemma OthersMove(h: Handler, e: Event)
    requires Valid(h) && !e.Request? && Enabled(h, e)
    ensures DebtsKept(h.reg, Apply(h, e).reg)
  {
    hide DebtsKept, Valid;
    match e
    case ListSweep(keys) => ListSweepKeeps(h, keys);
    case StreamSweep(readers) => StreamSweepKeeps(h, readers);
    case Timer(d) => ExpireKeeps(h, d);
  }

  lemma ListSweepKeeps(h: Handler, keys: seq<Key>)
    requires Valid(h) && Enumerates(keys, h.reg.lists.Keys)
    ensures DebtsKept(h.reg, SweepLists(h, keys).reg)
  {
    hide NoDup, DealtOnKey, SameButItems, OnKey, DebtsKept;
    Untouched(h.reg, h.reg);
    if h.flagList {
      SweepDeals(h, keys);
      RemovedAllKeeps(h.reg, h.parked, ChosenWaiters(h.reg, h.data, keys));
    }
    hide Valid, Released, ChosenWaiters, RemovedAll;
  }

  lemma StreamSweepKeeps(h: Handler, readers: seq<Ts>)
    requires Valid(h) && NoDup(readers)
    ensures DebtsKept(h.reg, SweepStreams(h, readers).reg)
  {
    hide DebtsKept;
    Untouched(h.reg, h.reg);
    if h.flagStream {
      ReadersReleased(h, readers);
      RemovedAllKeeps(h.reg, h.parked, ChosenReaders(h.reg, h.data, readers));
    }
    hide Valid, Released, ChosenReaders, RemovedAll;
  }

  lemma ExpireKeeps(h: Handler, d: nat)
    requires Valid(h) && d in h.reg.deadlines
    ensures DebtsKept(h.reg, Expire(h, d).reg)
  {
    var t := h.reg.deadlines[d];
    RemovedKeeps(h.reg, h.parked, t);
    RemoveTwice(h.reg, t);
    hide Valid, Registry.Removed, DebtsKept;
    if t !in h.reg.store {
      Untouched(h.reg, Expire(h, d).reg);
    }
  }

  lemma EventMoves(h: Handler, e: Event, t: Ts)
    requires Valid(h) && Enabled(h, e) && IsWait(Apply(h, e).reg.store, t)
    ensures WaitMoved(h, e, Apply(h, e), t)
  {
    if e.Request? {
      RequestMoves(h, e, t);
    } else {
      OthersMove(h, e);
      hide Valid, Enabled, DebtsKept, WaitMoved, Applied;
      KeptMoves(h, e, Apply(h, e), t);
    }
  }

  // ----- Runs

  /** A replica that was asked owes its ACK exactly as long as it has not been heard. */
  ghost predicate OwesUnlessHeard(events: seq<Event>, t: Ts)
    requires Possible(events) && IsWait(After(events).reg.store, t)
  {
    var r := After(events).reg;
    forall s :: s in r.store[t].slaves ==> (Owes(r.acks, s, r.store[t].client) <==> s !in Heard(events, t))
  }

  lemma {:induction false} RunOwes(events: seq<Event>, t: Ts)
    requires Possible(events) && IsWait(After(events).reg.store, t)
    ensures OwesUnlessHeard(events, t)
  {
    if events != [] {
      var n := |events| - 1;
      var h := After(events[..n]);
      EventMoves(h, events[n], t);
      hide Valid, Enabled, Owes, NewlyHeard, Applied, OwesUnlessHeard, WaitMoved;
      if IsWait(h.reg.store, t) {
        RunOwes(events[..n], t);
      }
      StillOwes(events, t);
    }
  }

  lemma StillOwes(events: seq<Event>, t: Ts)
    requires Possible(events) && events != [] && IsWait(After(events).reg.store, t)
    requires var n := |events| - 1;
             var h := After(events[..n]);
             WaitMoved(h, events[n], After(events), t) && (IsWait(h.reg.store, t) ==> OwesUnlessHeard(events[..n], t))
    ensures OwesUnlessHeard(events, t)
  {
    hide Valid, Enabled, Owes, NewlyHeard, Applied;
  }

  ghost function Among(slaves: seq<Client>, heard: set<Client>): set<Client> {
    set s | s in slaves && s in heard
  }

  /** The asked replicas that have been heard. */
  ghost function HeardAsked(events: seq<Event>, t: Ts, e: RequestEntry): set<Client>
    requires Possible(events) && e.WaitReq?
  {
    Among(e.slaves, Heard(events, t))
  }

  lemma LastAmong(slaves: seq<Client>, heard: set<Client>)
    requires NoDup(slaves) && slaves != []
    ensures var n := |slaves| - 1;
            |Among(slaves, heard)| == |Among(slaves[..n], heard)| + (if slaves[n] in heard then 1 else 0)
  {
    var n := |slaves| - 1;
    var before := Among(slaves[..n], heard);
    assert forall s :: s in slaves <==> s in slaves[..n] || s == slaves[n];
    assert slaves[n] !in slaves[..n];
    assert Among(slaves, heard) == if slaves[n] in heard then before + {slaves[n]} else before;
  }

  lemma {:induction false} OwingAndHeard(acks: Debts, client: Client, slaves: seq<Client>, heard: set<Client>)
    requires NoDup(slaves) && forall s :: s in slaves ==> (Owes(acks, s, client) <==> s !in heard)
    ensures Owing(acks, client, slaves) + |Among(slaves, heard)| == |slaves|
  {
    hide Owes;
    if slaves == [] {
      assert Among(slaves, heard) == {};
    } else {
      var n := |slaves| - 1;
      OwingAndHeard(acks, client, slaves[..n], heard);
      LastAmong(slaves, heard);
      hide Among, NoDup;
    }
  }

  lemma CountIsHeard(e: RequestEntry, acks: Debts, heard: set<Client>)
    requires e.WaitReq? && Balanced(e, acks)
    requires forall s :: s in e.slaves ==> (Owes(acks, s, e.client) <==> s !in heard)
    ensures e.actual == |Among(e.slaves, heard)|
  {
    OwingAndHeard(acks, e.client, e.slaves, heard);
    hide Owes, Among, Owing;
  }

  /**
   * In every run the count of a parked WAIT is the number of distinct replicas, of those it asked, that have
   * acknowledged at least its offset since it parked. A reply on timeout gives this count.
   */
  lemma WaitCountsReplicas(events: seq<Event>, t: Ts)
    requires Possible(events) && IsWait(After(events).reg.store, t)
    ensures var e := After(events).reg.store[t]; e.actual == |HeardAsked(events, t, e)|
  {
    var r := After(events).reg;
    var e := r.store[t];
    var heard := Heard(events, t);
    RunOwes(events, t);
    assert forall s :: s in e.slaves ==> (Owes(r.acks, s, e.client) <==> s !in heard);
    assert e.WaitReq? && Balanced(e, r.acks) by { assert Valid(After(events)); }
    assert HeardAsked(events, t, e) == Among(e.slaves, heard);
    hide *;
    CountIsHeard(e, r.acks, heard);
  }

  lemma OneMoreHeard(slaves: seq<Client>, heard: set<Client>, s: Client)
    requires s in slaves && s !in heard
    ensures |Among(slaves, heard + {s})| == |Among(slaves, heard)| + 1
  {
    assert Among(slaves, heard + {s}) == Among(slaves, heard) + {s};
  }

  /**
   * An ACK that completes a WAIT is answered with the number of distinct asked replicas that have acknowledged its
   * offset since it parked, this one included: exactly the number required.
   */
  lemma ServedReplyCountsReplicas(events: seq<Event>, e: Event, slave: Client, offset: int, client: Client)
    requires Possible(events) && Possible(events + [e]) && AckOf(After(events), e) == Some(Acknowledgement(slave, offset))
    requires var r := After(events).reg; Owes(r.acks, slave, client) && Completes(r.store, r.waits, client, offset)
    ensures var h := After(events);
            var t := h.reg.waits[client];
            && h.reg.store[t].required == |HeardAsked(events + [e], t, h.reg.store[t])|
            && Message(client, Int(h.reg.store[t].required)) in AckOp(h, slave, offset).0.queue[|h.queue|..]
  {
    var h := After(events);
    var t := h.reg.waits[client];
    DebtIsKnown(h, slave, client);
    ServedIsAnswered(h, slave, offset, client);
    var entry := h.reg.store[t];
    var heard := Heard(events, t);
    RunOwes(events, t);
    WaitCountsReplicas(events, t);
    assert slave !in heard && entry.actual == |Among(entry.slaves, heard)| && entry.actual + 1 == entry.required;
    assert Heard(events + [e], t) == heard + {slave} by { LastHeard(events, e, t); }
    assert HeardAsked(events + [e], t, entry) == Among(entry.slaves, heard + {slave});
    hide *;
    OneMoreHeard(entry.slaves, heard, slave);
  }

  lemma LastHeard(events: seq<Event>, e: Event, t: Ts)
    requires Possible(events) && Possible(events + [e]) && IsWait(After(events).reg.store, t)
    ensures Heard(events + [e], t) == Heard(events, t) + NewlyHeard(After(events), e, t)
  {
    assert (events + [e])[..|events|] == events;
    hide NewlyHeard, After;
  }

  /** The replica was asked by the WAIT, which lacks its count. */
  lemma DebtIsKnown(h: Handler, slave: Client, client: Client)
    requires Valid(h) && Owes(h.reg.acks, slave, client)
    ensures client in h.reg.waits && IsWait(h.reg.store, h.reg.waits[client])
    ensures var e := h.reg.store[h.reg.waits[client]]; slave in e.slaves && e.client == client && e.actual < e.required
  {
  }

  lemma ServedIsAnswered(h: Handler, slave: Client, offset: int, client: Client)
    requires Valid(h) && Owes(h.reg.acks, slave, client) && Completes(h.reg.store, h.reg.waits, client, offset)
    ensures |h.queue| <= |AckOp(h, slave, offset).0.queue|
    ensures Message(client, Int(h.reg.store[h.reg.waits[client]].required)) in AckOp(h, slave, offset).0.queue[|h.queue|..]
  {
    AckServes(h, slave, offset);
    var c := CountAll(h.reg.store, h.reg.waits, h.reg.acks[slave], offset);
    hide Valid, CountAll, AckOp, Completes;
    var i :| 0 <= i < |c.served| && c.served[i] == client;
    assert ExactReply(h.reg.store, h.reg.waits, c.served[i], c.replies[i]);
    assert c.replies[i] in c.replies;
  }
}
