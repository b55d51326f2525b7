/** src/commands/cmd_handler.rs, `CmdHandler` as functions between its states: every event of the main loop is one. */
module Handler {
  import opened Base
  import opened Streams
  import opened Commands
  import opened Registry
  import opened Store

  datatype Message = Message(to: Client, body: Body)

  /**
   * The fields of `CmdHandler`; `log` holds the bytes of the append-only file.
   * `queue` keeps every message ever pushed; flushing it is output.
   * `parked`, `asked`, `seen` and `answers` are histories: every request ever parked, who sent it, the key space at that
   * moment, every parked request answered.
   */
  datatype Handler = Handler(
    data: Data, reg: Reg, queue: seq<Message>, flagList: bool, flagStream: bool, log: Bytes,
    parked: seq<Ts>, asked: map<Ts, Client>, seen: map<Ts, Data>, answers: seq<Ts>)

  const START: Handler := Handler(map[], EMPTY, [], false, false, [], [], map[], map[], [])

  /** What a command reads of its surroundings: the clock, the replication offset and the connected replicas. */
  datatype Env = Env(now: nat, offset: int, slaves: seq<Client>)

  // ----- Parking

  function DeadlineAfter(now: nat, timeoutMs: Option<nat>): nat {
    if timeoutMs.Some? then now + timeoutMs.value else 0
  }

  function Park(h: Handler, t: Ts, entry: RequestEntry): Handler {
    h.(reg := Inserted(h.reg, t, entry.deadline, entry),
       parked := h.parked + [t], asked := h.asked[t := entry.client], seen := h.seen[t := h.data])
  }

  /** `is_backlog_list_empty`: false for a key without a queue. */
  predicate IsBacklogListEmpty(r: Reg, key: Key) {
    key in r.lists && r.lists[key] == []
  }

  function BlpopOp(h: Handler, key: Key, timeoutMs: Option<nat>, client: Client, env: Env): (Handler, Output) {
    var parking := Park(h, env.now, ListReq(client, key, DeadlineAfter(env.now, timeoutMs)));
    if key !in h.data then (parking, Silent)
    else
      match h.data[key].value
      case List(items) =>
        if IsBacklogListEmpty(h.reg, key) && items != [] then
          (h.(data := h.data[key := h.data[key].(value := List(items[1..]))]), Reply(Popped(key, items[0])))
        else (parking, Silent)
      case _ => (h, Failure(WrongType))
  }

  /** `$` becomes the last id of the stream, or 0-0. */
  function Resolve(data: Data, cursors: seq<Cursor>): (r: seq<Cursor>)
    ensures |r| == |cursors|
  {
    seq(|cursors|, i requires 0 <= i < |cursors| => ResolveOne(data, cursors[i]))
  }

  function ResolveOne(data: Data, c: Cursor): Cursor {
    if c.id != DOLLAR_ID then c
    else
      match Last(EntriesOf(data, c.key))
      case Some(id) => Cursor(c.key, id)
      case None => Cursor(c.key, Id(0, 0))
  }

  function XreadOp(h: Handler, count: Option<nat>, blockMs: Option<nat>, cursors: seq<Cursor>, client: Client, env: Env): (Handler, Output) {
    if exists c :: c in cursors && c.key in h.data && !h.data[c.key].value.Stream? then (h, Failure(WrongType))
    else
      var resolved := Resolve(h.data, cursors);
      var pages := ReadPages(h.data, resolved, count);
      if pages != [] then (h, Reply(Pages(pages)))
      else
        match blockMs
        case None => (h, Reply(EmptyArray))
        case Some(ms) =>
          var deadline := DeadlineAfter(env.now, if ms == 0 then None else blockMs);
          (Park(h, env.now, StreamReq(client, count, resolved, deadline)), Silent)
  }

  function ToAll(clients: seq<Client>, body: Body): seq<Message> {
    seq(|clients|, i requires 0 <= i < |clients| => Message(clients[i], body))
  }

  function WaitOp(h: Handler, required: nat, timeoutMs: Option<nat>, client: Client, env: Env): (Handler, Output) {
    if required == 0 then (h, Reply(Int(0)))
    else if env.offset == 0 then (h, Reply(Int(|env.slaves|)))
    else
      var entry := WaitReq(client, required, 0, DeadlineAfter(env.now, timeoutMs), env.offset, env.slaves);
      (Park(h.(queue := h.queue + ToAll(env.slaves, GetAck)), env.now, entry), Silent)
  }

  // ----- Acknowledgements

  /** The store, the clients this ACK counts for, the clients it completes, and the replies to these. */
  datatype Counting = Counting(store: map<Ts, RequestEntry>, acked: seq<Client>, served: seq<Client>, replies: seq<Message>)

  function CountOne(c: Counting, waits: map<Client, Ts>, client: Client, offset: int): Counting {
    if client !in waits || waits[client] !in c.store || !c.store[waits[client]].WaitReq? then c
    else
      var t := waits[client];
      var e := c.store[t];
      var caught := offset >= e.offset;
      var e' := if caught then e.(actual := e.actual + 1) else e;
      var met := e'.actual >= e'.required;
      Counting(c.store[t := e'],
               if caught then c.acked + [client] else c.acked,
               if met then c.served + [client] else c.served,
               if met then c.replies + [Message(client, Int(e'.actual))] else c.replies)
  }

  function CountAll(store: map<Ts, RequestEntry>, waits: map<Client, Ts>, clients: seq<Client>, offset: int): Counting {
    if clients == [] then Counting(store, [], [], [])
    else CountOne(CountAll(store, waits, clients[..|clients| - 1], offset), waits, clients[|clients| - 1], offset)
  }

  function WithoutAll(s: seq<Client>, gone: seq<Client>): seq<Client> {
    if gone == [] then s else Without(WithoutAll(s, gone[..|gone| - 1]), gone[|gone| - 1])
  }

  function TimestampsOf(waits: map<Client, Ts>, clients: seq<Client>): seq<Ts> {
    if clients == [] then []
    else
      var c := clients[|clients| - 1];
      TimestampsOf(waits, clients[..|clients| - 1]) + (if c in waits then [waits[c]] else [])
  }

  function DebtsPaid(acks: map<Client, seq<Client>>, slave: Client, acked: seq<Client>): map<Client, seq<Client>> {
    if slave !in acks then acks
    else
      var left := WithoutAll(acks[slave], acked);
      if left == [] then acks - {slave} else acks[slave := left]
  }

  /** The REPLCONF ACK arm of `cmd_replconf`. */
  function AckOp(h: Handler, slave: Client, offset: int): (Handler, Output) {
    var clients := if slave in h.reg.acks then h.reg.acks[slave] else [];
    var c := CountAll(h.reg.store, h.reg.waits, clients, offset);
    var done := TimestampsOf(h.reg.waits, c.served);
    var reg := h.reg.(store := c.store, acks := DebtsPaid(h.reg.acks, slave, c.acked));
    (h.(reg := RemovedAll(reg, done), queue := h.queue + c.replies, answers := h.answers + done), Silent)
  }

  // ----- Executing one command

  function MultiOp(h: Handler, client: Client): (Handler, Output) {
    if client in h.reg.txns then (h, Failure(NestedMulti))
    else (h.(reg := h.reg.(txns := h.reg.txns[client := []])), Reply(Okay))
  }

  function EndTxn(h: Handler, client: Client): Handler {
    h.(reg := h.reg.(txns := h.reg.txns - {client}, watches := Unwatched(h.reg.watches, client)))
  }

  function DiscardOp(h: Handler, client: Client): (Handler, Output) {
    if client in h.reg.txns then (EndTxn(h, client), Reply(Okay)) else (h, Failure(NoMulti))
  }

  /** The dispatch of `_execute_cmd`; an EXEC that gets here comes without a MULTI. */
  function Dispatch(h: Handler, cmd: Cmd, client: Client, env: Env): (Handler, Output)
    requires cmd.Exec? ==> client !in h.reg.txns
  {
    if IsDataCmd(cmd) then
      var (data, out) := DataOp(h.data, cmd, env.now);
      (h.(data := data), out)
    else
      match cmd
      case Blpop(key, timeoutMs) => BlpopOp(h, key, timeoutMs, client, env)
      case Xread(count, blockMs, cursors) => XreadOp(h, count, blockMs, cursors, client, env)
      case Multi => MultiOp(h, client)
      case Exec => (h, Failure(NoMulti))
      case Discard => DiscardOp(h, client)
      case Watch(keys) => (h.(reg := h.reg.(watches := Watched(h.reg.watches, keys, client))), Reply(Okay))
      case Unwatch => (h.(reg := h.reg.(watches := Unwatched(h.reg.watches, client))), Reply(Okay))
      case Wait(required, timeoutMs) => WaitOp(h, required, timeoutMs, client, env)
      case ReplconfAck(offset) => AckOp(h, client, offset)
      case ReplconfGetAck(any) => (h, if any then Reply(AckOffset(Max(env.offset, 0))) else Silent)
  }

  /** What follows a reply: the flags are overwritten, a write goes to the log and to every replica. */
  function Settle(h: Handler, cmd: Cmd, buf: Bytes, env: Env): Handler {
    var flagged := h.(flagList := IsFlagList(cmd), flagStream := IsFlagStream(cmd));
    if ToBeBroadcast(cmd) then flagged.(log := h.log + buf, queue := h.queue + ToAll(env.slaves, Raw(buf))) else flagged
  }

  /** `_execute_cmd`: the written key is marked dirty first, whatever comes of the command. */
  function Execute(h: Handler, cmd: Cmd, buf: Bytes, client: Client, env: Env): (Handler, Output)
    requires cmd.Exec? ==> client !in h.reg.txns
  {
    var marked := h.(reg := h.reg.(watches := Dirtied(h.reg.watches, cmd)));
    var (h', out) := Dispatch(marked, cmd, client, env);
    (if out.Reply? then Settle(h', cmd, buf, env) else h', out)
  }

  // ----- Transactions and requests

  /** The replies of a batch: a reply or an error per command, nothing for one that is silent. */
  function BodyOf(out: Output): seq<Body> {
    match out
    case Reply(body) => [body]
    case Failure(e) => [ErrorReply(e)]
    case Silent => []
  }

  predicate NoExec(queue: seq<Queued>) {
    forall i :: 0 <= i < |queue| ==> !queue[i].cmd.Exec?
  }

  function ExecuteAll(h: Handler, queue: seq<Queued>, client: Client, envs: seq<Env>): (Handler, seq<Body>)
    requires NoExec(queue) && |envs| == |queue|
  {
    if queue == [] then (h, [])
    else
      var n := |queue| - 1;
      var (h', bodies) := ExecuteAll(h, queue[..n], client, envs[..n]);
      var (h'', out) := Execute(h', queue[n].cmd, queue[n].buf, client, envs[n]);
      (h'', bodies + BodyOf(out))
  }

  /** `cmd_exec` for a client with an open transaction. */
  function ExecOp(h: Handler, client: Client, envs: seq<Env>): (Handler, Output)
    requires client in h.reg.txns && NoExec(h.reg.txns[client]) && |envs| == |h.reg.txns[client]|
  {
    if IsAnyDirty(h.reg.watches, client) then (EndTxn(h, client), Reply(NullArray))
    else
      var drained := h.(reg := h.reg.(txns := h.reg.txns[client := []]));
      var (h', bodies) := ExecuteAll(drained, h.reg.txns[client], client, envs);
      (EndTxn(h', client), Reply(if bodies == [] then EmptyArray else Batch(bodies)))
  }

  function Enqueue(h: Handler, client: Client, cmd: Cmd, buf: Bytes): Handler
    requires client in h.reg.txns
  {
    h.(reg := h.reg.(txns := h.reg.txns[client := h.reg.txns[client] + [Queued(cmd, buf)]]))
  }

  /** How many commands a request makes the handler execute: its batch for an EXEC, else the one. */
  function EnvsNeeded(h: Handler, cmd: Option<Cmd>, client: Client): nat {
    if client in h.reg.txns then (if cmd == Some(Exec) then |h.reg.txns[client]| else 0)
    else 1
  }

  /** `handle`; `None` is a frame that is no command. */
  function Handle(h: Handler, cmd: Option<Cmd>, buf: Bytes, client: Client, envs: seq<Env>): (Handler, Output)
    requires |envs| == EnvsNeeded(h, cmd, client)
    requires client in h.reg.txns ==> NoExec(h.reg.txns[client])
  {
    match cmd
    case None => (h, Failure(BadCommand))
    case Some(c) =>
      if client !in h.reg.txns then Execute(h, c, buf, client, envs[0])
      else if c.Exec? then ExecOp(h, client, envs)
      else if c.Discard? then DiscardOp(h, client)
      else if c.Watch? then (h, Failure(WatchInMulti))
      else (Enqueue(h, client, c, buf), Reply(QueuedReply))
  }

  // ----- Sweeps and expiry

  function MaxPop(data: Data, r: Reg, key: Key): nat {
    if key in r.lists && key in data && data[key].value.List? then Min(|r.lists[key]|, |data[key].value.items|) else 0
  }

  /** The waiters a list sweep releases, key after key in the order the map is walked. */
  function ChosenWaiters(r: Reg, data: Data, order: seq<Key>): seq<Ts> {
    if order == [] then []
    else
      var key := order[|order| - 1];
      ChosenWaiters(r, data, order[..|order| - 1]) + (if key in r.lists then r.lists[key][..MaxPop(data, r, key)] else [])
  }

  /** The readers a stream sweep releases. */
  function ChosenReaders(r: Reg, data: Data, order: seq<Ts>): seq<Ts> {
    if order == [] then []
    else
      var t := order[|order| - 1];
      ChosenReaders(r, data, order[..|order| - 1]) + (if HasItems(r, data, t) then [t] else [])
  }

  predicate HasItems(r: Reg, data: Data, t: Ts) {
    t in r.store && r.store[t].StreamReq? && exists c :: c in r.store[t].cursors && IsAvailable(data, c)
  }

  /** A released request with what its task needs. */
  datatype Task = Task(t: Ts, entry: RequestEntry)

  /** Removes the chosen requests and collects their tasks. */
  function Collected(r: Reg, ts: seq<Ts>): (Reg, seq<Task>) {
    if ts == [] then (r, [])
    else
      var t := ts[|ts| - 1];
      var (r', tasks) := Collected(r, ts[..|ts| - 1]);
      (Removed(r', t), if t in r'.store then tasks + [Task(t, r'.store[t])] else tasks)
  }

  /** The task of BLPOP; it does nothing when there is no item after all. */
  function RunListTask(h: Handler, task: Task): Handler
    requires task.entry.ListReq?
  {
    var key := task.entry.key;
    if key in h.data && h.data[key].value.List? && h.data[key].value.items != [] then
      var items := h.data[key].value.items;
      h.(data := h.data[key := h.data[key].(value := List(items[1..]))],
         queue := h.queue + [Message(task.entry.client, Popped(key, items[0]))],
         reg := Removed(h.reg, task.t),
         answers := h.answers + [task.t])
    else h
  }

  function RunStreamTask(h: Handler, task: Task): Handler
    requires task.entry.StreamReq?
  {
    var pages := ReadPages(h.data, task.entry.cursors, task.entry.count);
    var body := if pages == [] then NullArray else Pages(pages);
    h.(queue := h.queue + [Message(task.entry.client, body)],
       reg := if pages == [] then h.reg else Removed(h.reg, task.t),
       answers := h.answers + [task.t])
  }

  function RunTasks(h: Handler, tasks: seq<Task>): Handler {
    if tasks == [] then h
    else
      var before := RunTasks(h, tasks[..|tasks| - 1]);
      var task := tasks[|tasks| - 1];
      match task.entry
      case ListReq(_, _, _) => RunListTask(before, task)
      case StreamReq(_, _, _, _) => RunStreamTask(before, task)
      case WaitReq(_, _, _, _, _, _) => before
  }

  function Released(h: Handler, ts: seq<Ts>): Handler {
    var (reg, tasks) := Collected(h.reg, ts);
    RunTasks(h.(reg := reg), tasks)
  }

  /** `serve_backlog_list`. */
  function SweepLists(h: Handler, order: seq<Key>): Handler {
    if !h.flagList then h else Released(h, ChosenWaiters(h.reg, h.data, order)).(flagList := false)
  }

  /** `serve_backlog_stream`. */
  function SweepStreams(h: Handler, order: seq<Ts>): Handler {
    if !h.flagStream then h else Released(h, ChosenReaders(h.reg, h.data, order)).(flagStream := false)
  }

  /** What a request gets when its time is up. */
  function TimeoutBody(e: RequestEntry): Body {
    if e.WaitReq? then Int(e.actual) else NullArray
  }

  /** `callback_deadline_expire` for the nearest deadline `d`. */
  function Expire(h: Handler, d: nat): Handler
    requires d in h.reg.deadlines
  {
    var t := h.reg.deadlines[d];
    if t !in h.reg.store then h
    else
      var e := h.reg.store[t];
      h.(reg := Removed(Removed(h.reg, t), t),
         queue := h.queue + [Message(e.client, TimeoutBody(e))],
         answers := h.answers + [t])
  }

  predicate IsNearest(r: Reg, d: nat) {
    d in r.deadlines && forall x :: x in r.deadlines ==> d <= x
  }
}
