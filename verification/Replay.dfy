/** src/aof.rs, `aof_replay`, against live execution: the logged writes rebuild the live key space. */
module Replay {
  import opened Base
  import opened Streams
  import opened Commands
  import opened Registry
  import opened Store
  import opened SilentWrites
  import opened Handler
  import opened Blocking
  import opened Sweeps
  import opened StreamSweeps
  import opened Runs
  import opened Watches
  import opened Resp
  import opened RespChunks
  import opened RespLateness
  import opened RespRoundTrip

  /** Which command a value is (`Cmd::from_resp`). */
  type Decoder = RespType -> Option<Cmd>

  /** The surroundings of the j-th command that the i-th value makes the handler execute. */
  type Surroundings = (nat, nat) -> Env

  // ----- The replay loop

  function PrintedForm(v: RespType): Bytes {
    if Printable(v) then Serialize(v) else []
  }

  predicate Ready(h: Handler) {
    0 in h.reg.txns ==> NoExec(h.reg.txns[0])
  }

  /** Handing one value to `handle` as client 0. */
  function Replayed(h: Handler, v: RespType, decode: Decoder, env: nat -> Env): (h': Handler)
    requires Ready(h)
    ensures Ready(h')
  {
    var envs := seq(EnvsNeeded(h, decode(v), 0), j requires 0 <= j => env(j));
    HandleReady(h, decode(v), PrintedForm(v), envs);
    Handle(h, decode(v), PrintedForm(v), 0, envs).0
  }

  function At(envs: Surroundings, i: nat): nat -> Env {
    (j: nat) => envs(i, j)
  }

  function ReplayedAll(h: Handler, vs: seq<RespType>, decode: Decoder, envs: Surroundings): (h': Handler)
    requires Ready(h)
    ensures Ready(h')
  {
    if vs == [] then h
    else
      var n := |vs| - 1;
      Replayed(ReplayedAll(h, vs[..n], decode, envs), vs[n], decode, At(envs, n))
  }

  /** Feeding and delivering chunk by chunk, a parse failure going unnoticed. */
  function Reread(chunks: seq<Bytes>): (r: (Parser, seq<RespType>))
    ensures Resp.Valid(r.0)
  {
    if chunks == [] then (NEW, [])
    else
      var (p, vs) := Reread(chunks[..|chunks| - 1]);
      FeedValid(p, chunks[|chunks| - 1]);
      var (q, more, _) := Deliver(Feed(p, chunks[|chunks| - 1]));
      (q, vs + more)
  }

  /** What replaying a file read in these chunks comes to. */
  function ReplayedFile(chunks: seq<Bytes>, decode: Decoder, envs: Surroundings): Handler {
    ReplayedAll(START, Reread(chunks).1, decode, envs)
  }

  lemma {:induction false} RereadIsReceive(chunks: seq<Bytes>)
    requires Receive(chunks).2
    ensures Reread(chunks) == (Receive(chunks).0, Receive(chunks).1)
  {
    if chunks != [] {
      RereadIsReceive(chunks[..|chunks| - 1]);
    }
  }

  // ----- MULTI state

  /** Nothing changes but the client's own transaction, which is opened empty or ended. */
  predicate OwnTxnChange(txns: map<Client, seq<Queued>>, txns': map<Client, seq<Queued>>, client: Client) {
    txns' == txns || txns' == txns[client := []] || txns' == txns - {client}
  }

  lemma DispatchTxns(h: Handler, cmd: Cmd, client: Client, env: Env)
    requires cmd.Exec? ==> client !in h.reg.txns
    ensures OwnTxnChange(h.reg.txns, Dispatch(h, cmd, client, env).0.reg.txns, client)
  {
    hide DataOp, AckOp, ReadPages, Dirtied, Watched, Unwatched, ToAll, Resolve, FreeSlot, AcksWith, ListsWith;
    if cmd.ReplconfAck? {
      AckKeepsWatches(h, client, cmd.ackOffset);
    }
  }

  lemma SettleTxns(h: Handler, cmd: Cmd, buf: Bytes, env: Env)
    ensures Settle(h, cmd, buf, env).reg.txns == h.reg.txns
  {
  }

  lemma ExecuteTxns(h: Handler, cmd: Cmd, buf: Bytes, client: Client, env: Env)
    requires cmd.Exec? ==> client !in h.reg.txns
    ensures OwnTxnChange(h.reg.txns, Execute(h, cmd, buf, client, env).0.reg.txns, client)
  {
    hide Dispatch, Dirtied, Settle, OwnTxnChange;
    DispatchTxns(Marked(h, cmd), cmd, client, env);
    var h' := Dispatch(Marked(h, cmd), cmd, client, env).0;
    SettleTxns(h', cmd, buf, env);
  }

  lemma {:induction false} ExecuteAllTxns(h: Handler, queue: seq<Queued>, client: Client, envs: seq<Env>)
    requires NoExec(queue) && |envs| == |queue|
    ensures var txns := ExecuteAll(h, queue, client, envs).0.reg.txns;
            txns - {client} == h.reg.txns - {client}
  {
    if queue != [] {
      var n := |queue| - 1;
      ExecuteAllTxns(h, queue[..n], client, envs[..n]);
      ExecuteTxns(ExecuteAll(h, queue[..n], client, envs[..n]).0, queue[n].cmd, queue[n].buf, client, envs[n]);
    }
    hide Execute;
  }

  lemma ExecOpTxns(h: Handler, client: Client, envs: seq<Env>)
    requires client in h.reg.txns && NoExec(h.reg.txns[client]) && |envs| == |h.reg.txns[client]|
    ensures ExecOp(h, client, envs).0.reg.txns == h.reg.txns - {client}
  {
    if !IsAnyDirty(h.reg.watches, client) {
      ExecuteAllTxns(Runs.Drained(h, client), h.reg.txns[client], client, envs);
    }
    hide ExecuteAll, IsAnyDirty, Unwatched;
  }

  lemma AloneReady(h: Handler, cmd: Cmd, buf: Bytes, env: Env)
    requires 0 !in h.reg.txns
    ensures Ready(Execute(h, cmd, buf, 0, env).0)
  {
    ExecuteTxns(h, cmd, buf, 0, env);
    hide Execute;
  }

  lemma EnqueueReady(h: Handler, cmd: Cmd, buf: Bytes)
    requires 0 in h.reg.txns && NoExec(h.reg.txns[0]) && !cmd.Exec?
    ensures Ready(Enqueue(h, 0, cmd, buf))
  {
  }

  lemma HandleReady(h: Handler, cmd: Option<Cmd>, buf: Bytes, envs: seq<Env>)
    requires Ready(h) && |envs| == EnvsNeeded(h, cmd, 0)
    ensures Ready(Handle(h, cmd, buf, 0, envs).0)
  {
    hide Execute, ExecOp, Unwatched, NoExec, Enqueue;
    if cmd.Some? {
      if 0 !in h.reg.txns {
        AloneReady(h, cmd.value, buf, envs[0]);
      } else if cmd.value.Exec? {
        ExecOpTxns(h, 0, envs);
      } else {
        EnqueueReady(h, cmd.value, buf);
      }
    }
  }

  // ----- One command, live and replayed

  /** The key space without the keys that hold an empty stream. */
  function Lasting(data: Data): Data {
    map k | k in data && data[k].value != Stream([]) :: data[k]
  }

  predicate Timeless(data: Data) {
    forall k :: k in data ==> data[k].expiresAt == None
  }

  /**
   * The commands that do the same whenever they are replayed, or nothing and unlogged: no expiry, no id from the clock
   * unless it is refused, no bit above 1 on a new key, no sorted-set write that changes anything.
   */
  predicate Repeatable(data: Data, cmd: Cmd) {
    match cmd
    case Set(_, _, expiry) => expiry == None || expiry == Some(OtherOption)
    case Xadd(key, id, _) => id.ms.Some? || id.seqno.Some? || (key in data && !data[key].value.Stream?)
    case Setbit(key, _, bit) => bit <= 1 || key in data
    case Zadd(_, _, _) => SilentKey(data, cmd) == None
    case Zrem(_, _) => SilentKey(data, cmd) == None
    case _ => true
  }

  /** A successful write does the same to the lasting key space at any time; nothing else changes the latter. */
  ghost predicate Repeats(data: Data, cmd: Cmd, now: nat)
    requires IsDataCmd(cmd)
  {
    var (data', out) := DataOp(data, cmd, now);
    if ToBeBroadcast(cmd) && out.Reply? then forall later :: DataOp(Lasting(data), cmd, later) == (Lasting(data'), out)
    else Lasting(data') == Lasting(data)
  }

  /** Without an expiry in the command, no item has one. */
  lemma StaysTimeless(data: Data, cmd: Cmd, now: nat)
    requires IsDataCmd(cmd) && Timeless(data) && Repeatable(data, cmd)
    ensures Timeless(DataOp(data, cmd, now).0)
  {
    hide NewId, WithEntry, Bitmaps.Write, Bitmaps.New, Bitmaps.Combine, Bitmaps.BitCount, SortedSets.Added, SortedSets.Removed;
    hide Decimal.Print, Decimal.ParseI64, Decimal.PrintInt, PushedFront, SilentKey;
  }

  lemma SetRepeats(data: Data, cmd: Cmd, now: nat)
    requires Timeless(data) && cmd.Set?
    ensures Repeats(data, cmd, now) <==> Repeatable(data, cmd)
  {
    var data' := DataOp(data, cmd, now).0;
    if Repeatable(data, cmd) {
      forall later: nat
        ensures DataOp(Lasting(data), cmd, later).0 == Lasting(data')
      {
      }
    } else {
      var later := now + 1000;
      assert DataOp(Lasting(data), cmd, later).0[cmd.key].expiresAt != Lasting(data')[cmd.key].expiresAt;
    }
  }

  lemma PushRepeats(data: Data, cmd: Cmd, now: nat)
    requires Timeless(data) && (cmd.Rpush? || cmd.Lpush?)
    ensures Repeats(data, cmd, now)
  {
    hide PushedFront;
    var (data', out) := DataOp(data, cmd, now);
    if out.Reply? {
      assert DataOp(Lasting(data), cmd, now).0 == Lasting(data');
    } else {
      assert data' == data;
    }
  }

  lemma LpopRepeats(data: Data, cmd: Cmd, now: nat)
    requires Timeless(data) && cmd.Lpop?
    ensures Repeats(data, cmd, now)
  {
    var (data', out) := DataOp(data, cmd, now);
    if out.Reply? {
      assert DataOp(Lasting(data), cmd, now).0 == Lasting(data');
    }
  }

  lemma IncrRepeats(data: Data, cmd: Cmd, now: nat)
    requires Timeless(data) && cmd.Incr?
    ensures Repeats(data, cmd, now)
  {
    Decimal.ParsePrintInt(0);
    hide Decimal.ParseI64, Decimal.PrintInt, Decimal.Print;
    var (data', out) := DataOp(data, cmd, now);
    if out.Reply? {
      assert DataOp(Lasting(data), cmd, now).0 == Lasting(data');
    } else {
      assert data' == data;
    }
  }

  lemma XaddRepeats(data: Data, cmd: Cmd, now: nat)
    requires Timeless(data) && cmd.Xadd? && Repeatable(data, cmd)
    ensures Repeats(data, cmd, now)
  {
    NewEntryIsThere(EntriesOf(data, cmd.key));
    hide WithEntry;
    var (data', out) := DataOp(data, cmd, now);
    if out.Reply? {
      assert DataOp(Lasting(data), cmd, now).0 == Lasting(data');
    } else {
      assert Lasting(data') == Lasting(data);
    }
  }

  /** An id from the clock is another one a moment later. */
  lemma ClockedXadd(data: Data, cmd: Cmd, now: nat)
    requires cmd.Xadd? && !Repeatable(data, cmd)
    ensures !Repeats(data, cmd, now)
  {
    hide WithEntry;
    assert DataOp(data, cmd, now).1 == Reply(NewIdReply(Id(now, 0)));
    var later := now + 1;
    assert DataOp(Lasting(data), cmd, later).1 == Reply(NewIdReply(Id(later, 0)));
  }

  lemma NewEntryIsThere(entries: seq<Entry>)
    ensures forall e :: WithEntry(entries, e) != []
  {
  }

  lemma SetbitRepeats(data: Data, cmd: Cmd, now: nat)
    requires Timeless(data) && cmd.Setbit?
    ensures Repeats(data, cmd, now) <==> Repeatable(data, cmd)
  {
    if cmd.bit <= 1 {
      WriteSucceeds(Bitmaps.New(cmd.offset + 1), cmd.offset, cmd.bit);
    } else {
      WriteFails(Bitmaps.New(cmd.offset + 1), cmd.offset, cmd.bit);
      if cmd.key in data && data[cmd.key].value.Bits? {
        WriteFails(data[cmd.key].value.bits, cmd.offset, cmd.bit);
      }
    }
    hide Bitmaps.Write, Bitmaps.New;
    var (data', out) := DataOp(data, cmd, now);
    if out.Reply? {
      assert DataOp(Lasting(data), cmd, now).0 == Lasting(data');
    } else if cmd.key in data {
      assert data' == data;
    } else {
      assert cmd.key in Lasting(data') && cmd.key !in Lasting(data);
    }
  }

  lemma WriteFails(bytes: Bytes, offset: nat, bit: nat)
    requires bit > 1
    ensures Bitmaps.Write(bytes, offset, bit).0.None?
  {
  }

  /** A bit of 0 or 1 is written wherever it is. */
  lemma WriteSucceeds(bytes: Bytes, offset: nat, bit: nat)
    requires bit <= 1
    ensures Bitmaps.Write(bytes, offset, bit).0.Some?
  {
  }

  lemma BitopRepeats(data: Data, cmd: Cmd, now: nat)
    requires Timeless(data) && cmd.Bitop?
    ensures Repeats(data, cmd, now)
  {
    hide Bitmaps.Combine;
    var (data', out) := DataOp(data, cmd, now);
    if out.Reply? {
      assert DataOp(Lasting(data), cmd, now).0 == Lasting(data');
    }
  }

  lemma SilentRepeats(data: Data, cmd: Cmd, now: nat)
    requires Timeless(data) && AllCovered(data) && (cmd.Zadd? || cmd.Zrem?)
    ensures Repeats(data, cmd, now) <==> Repeatable(data, cmd)
  {
    var data' := DataOp(data, cmd, now).0;
    forall key: Key
      ensures Lookup(data', key) == Lookup(data, key) <==> SilentKey(data, cmd) != Some(key)
    {
      SilentKeyIsChanged(data, cmd, now, key);
    }
    hide AllCovered, SortedSets.Added, SortedSets.Removed;
    if SilentKey(data, cmd) == None {
      SameLookups(data, data');
    } else {
      SilentChangeLasts(data, cmd, now);
    }
  }

  lemma SilentChangeLasts(data: Data, cmd: Cmd, now: nat)
    requires (cmd.Zadd? || cmd.Zrem?) && SilentKey(data, cmd).Some?
    requires Lookup(DataOp(data, cmd, now).0, cmd.key) != Lookup(data, cmd.key)
    ensures Lasting(DataOp(data, cmd, now).0) != Lasting(data)
  {
    hide SortedSets.Added, SortedSets.Removed;
    var data' := DataOp(data, cmd, now).0;
    assert data'[cmd.key].value.Scores?;
    assert cmd.key in Lasting(data') && Lasting(data')[cmd.key] == data'[cmd.key];
  }

  /** Exactly the repeatable commands keep the log and the key space in step, whatever the key space. */
  lemma DataOpRepeats(data: Data, cmd: Cmd, now: nat)
    requires IsDataCmd(cmd) && Timeless(data) && AllCovered(data)
    ensures Repeats(data, cmd, now) <==> Repeatable(data, cmd)
  {
    hide Repeats, AllCovered;
    match cmd
    case Set(_, _, _) => SetRepeats(data, cmd, now);
    case Rpush(_, _) => PushRepeats(data, cmd, now);
    case Lpush(_, _) => PushRepeats(data, cmd, now);
    case Lpop(_, _) => LpopRepeats(data, cmd, now);
    case Xadd(_, _, _) =>
      if Repeatable(data, cmd) {
        XaddRepeats(data, cmd, now);
      } else {
        ClockedXadd(data, cmd, now);
      }
    case Incr(_) => IncrRepeats(data, cmd, now);
    case Setbit(_, _, _) => SetbitRepeats(data, cmd, now);
    case Bitop(_, _, _, _) => BitopRepeats(data, cmd, now);
    case Zadd(_, _, _) => SilentRepeats(data, cmd, now);
    case Zrem(_, _) => SilentRepeats(data, cmd, now);
    case _ => ReadRepeats(data, cmd, now);
  }

  lemma ReadRepeats(data: Data, cmd: Cmd, now: nat)
    requires IsDataCmd(cmd) && Timeless(data) && !ToBeBroadcast(cmd) && !cmd.Zadd? && !cmd.Zrem?
    ensures Repeats(data, cmd, now)
  {
  }

  // ----- The log of a live run

  /** `buf` is what printing the value gives that was decoded to `cmd`, as the read loop of a client passes it on. */
  ghost predicate Framed(decode: Decoder, cmd: Cmd, buf: Bytes) {
    exists v :: WellFormed(v) && PrintedForm(v) == buf && decode(v) == Some(cmd)
  }

  ghost predicate QueueFramed(decode: Decoder, queue: seq<Queued>) {
    forall i :: 0 <= i < |queue| ==> Framed(decode, queue[i].cmd, queue[i].buf)
  }

  ghost predicate QueuesFramed(decode: Decoder, txns: map<Client, seq<Queued>>) {
    forall c :: c in txns ==> QueueFramed(decode, txns[c])
  }

  /** The log is these values printed, and replaying them gives the lasting key space, whatever the surroundings. */
  ghost predicate Records(decode: Decoder, frames: seq<RespType>, log: Bytes, data: Data) {
    && AllWellFormed(frames)
    && log == PrintAll(frames)
    && forall envs: Surroundings :: Rebuilt(decode, frames, data, envs)
  }

  predicate Rebuilt(decode: Decoder, frames: seq<RespType>, data: Data, envs: Surroundings) {
    ReplayedAll(START, frames, decode, envs).data == Lasting(data) && 0 !in ReplayedAll(START, frames, decode, envs).reg.txns
  }

  ghost predicate Recorded(decode: Decoder, log: Bytes, data: Data) {
    Timeless(data) && AllCovered(data) && exists frames :: Records(decode, frames, log, data)
  }

  /** A logged command: its frame takes the replay from the lasting key space before it to the one after it. */
  lemma OneMoreRebuilt(decode: Decoder, frames: seq<RespType>, v: RespType, data: Data, cmd: Cmd, now: nat, envs: Surroundings)
    requires Rebuilt(decode, frames, data, envs) && decode(v) == Some(cmd) && IsDataCmd(cmd)
    requires Repeats(data, cmd, now) && ToBeBroadcast(cmd) && DataOp(data, cmd, now).1.Reply?
    ensures Rebuilt(decode, frames + [v], DataOp(data, cmd, now).0, envs)
  {
    var n := |frames|;
    assert (frames + [v])[..n] == frames;
    var before := ReplayedAll(START, frames, decode, envs);
    var env := envs(n, 0);
    assert Replayed(before, v, decode, (j: nat) => envs(n, j)) == Execute(before, cmd, PrintedForm(v), 0, env).0;
    hide ReplayedAll, DataOp, Lasting, Dirtied, ToAll;
  }

  lemma LogGrows(frames: seq<RespType>, v: RespType)
    requires AllWellFormed(frames) && WellFormed(v)
    ensures AllWellFormed(frames + [v]) && PrintAll(frames + [v]) == PrintAll(frames) + PrintedForm(v)
  {
    var all := frames + [v];
    PrintAllSplit(all, |frames|);
    assert all[..|frames|] == frames && all[|frames|..] == [v];
    PrintOne(v);
    hide PrintAll, WellFormed;
  }

  lemma LoggedRecorded(decode: Decoder, log: Bytes, data: Data, cmd: Cmd, buf: Bytes, now: nat)
    requires Recorded(decode, log, data) && Framed(decode, cmd, buf) && IsDataCmd(cmd)
    requires Repeats(data, cmd, now) && ToBeBroadcast(cmd) && DataOp(data, cmd, now).1.Reply?
    requires Timeless(DataOp(data, cmd, now).0) && AllCovered(DataOp(data, cmd, now).0)
    ensures Recorded(decode, log + buf, DataOp(data, cmd, now).0)
  {
    var frames :| Records(decode, frames, log, data);
    var v :| WellFormed(v) && PrintedForm(v) == buf && decode(v) == Some(cmd);
    RecordsGrow(decode, frames, v, log, data, cmd, now);
  }

  /** A frame of a logged command more. */
  lemma RecordsGrow(decode: Decoder, frames: seq<RespType>, v: RespType, log: Bytes, data: Data, cmd: Cmd, now: nat)
    requires Records(decode, frames, log, data) && WellFormed(v) && decode(v) == Some(cmd) && IsDataCmd(cmd)
    requires Repeats(data, cmd, now) && ToBeBroadcast(cmd) && DataOp(data, cmd, now).1.Reply?
    ensures Records(decode, frames + [v], log + PrintedForm(v), DataOp(data, cmd, now).0)
  {
    hide DataOp, PrintAll, WellFormed, Rebuilt, Repeats;
    LogGrows(frames, v);
    forall envs: Surroundings
      ensures Rebuilt(decode, frames + [v], DataOp(data, cmd, now).0, envs)
    {
      OneMoreRebuilt(decode, frames, v, data, cmd, now, envs);
    }
  }

  /** The key space may change as long as the lasting one does not. */
  lemma RecordsKeep(decode: Decoder, frames: seq<RespType>, log: Bytes, data: Data, data': Data)
    requires Records(decode, frames, log, data) && Lasting(data') == Lasting(data)
    ensures Records(decode, frames, log, data')
  {
    hide PrintAll, WellFormed;
    forall envs: Surroundings
      ensures Rebuilt(decode, frames, data', envs)
    {
      assert Rebuilt(decode, frames, data, envs);
    }
  }

  lemma UnloggedRecorded(decode: Decoder, log: Bytes, data: Data, data': Data)
    requires Recorded(decode, log, data) && Lasting(data') == Lasting(data) && Timeless(data') && AllCovered(data')
    ensures Recorded(decode, log, data')
  {
    var frames :| Records(decode, frames, log, data);
    RecordsKeep(decode, frames, log, data, data');
  }

  /** Commands that are no data commands leave the key space alone and are not logged: BLPOP parks. */
  lemma OthersChangeNothing(h: Handler, cmd: Cmd, client: Client, env: Env)
    requires Blocking.Valid(h) && !IsDataCmd(cmd) && (cmd.Exec? ==> client !in h.reg.txns)
    ensures var (h', out) := Dispatch(h, cmd, client, env);
            h'.data == h.data && h'.log == h.log && !(ToBeBroadcast(cmd) && out.Reply?)
  {
    hide Blocking.Valid, DataOp, ReadPages, Watched, Unwatched, Resolve, ToAll, RemovedAll, CountAll, Inserted, BlpopOp;
    if cmd.Blpop? {
      BlpopChangesNothing(h, cmd.key, cmd.timeoutMs, client, env);
    }
  }

  lemma BlpopChangesNothing(h: Handler, key: Key, timeoutMs: Option<nat>, client: Client, env: Env)
    requires Blocking.Valid(h)
    ensures var (h', out) := BlpopOp(h, key, timeoutMs, client, env);
            h'.data == h.data && h'.log == h.log && !out.Reply?
  {
    BlpopParks(h, key, timeoutMs, client, env);
    hide Blocking.Valid, BlpopOp, Inserted;
  }

  /** Only data commands act on the key space and only they are logged. */
  lemma ExecuteActs(h: Handler, cmd: Cmd, buf: Bytes, client: Client, env: Env)
    requires Blocking.Valid(h) && (cmd.Exec? ==> client !in h.reg.txns)
    ensures var (h', out) := Execute(h, cmd, buf, client, env);
            if IsDataCmd(cmd) then (h'.data, out) == DataOp(h.data, cmd, env.now)
            else h'.data == h.data && !(ToBeBroadcast(cmd) && out.Reply?)
  {
    var marked := Marked(h, cmd);
    MarkedValid(h, cmd);
    ExecuteParts(h, cmd, buf, client, env);
    hide Blocking.Valid, Dirtied, DataOp, Execute, Settle;
    SettleKeeps(Dispatch(marked, cmd, client, env).0, cmd, buf, env);
    if !IsDataCmd(cmd) {
      OthersChangeNothing(marked, cmd, client, env);
      hide Dispatch;
    }
  }

  lemma ExecuteRecorded(decode: Decoder, h: Handler, cmd: Cmd, buf: Bytes, client: Client, env: Env)
    requires Blocking.Valid(h) && (cmd.Exec? ==> client !in h.reg.txns)
    requires Recorded(decode, h.log, h.data) && Framed(decode, cmd, buf) && Repeatable(h.data, cmd)
    ensures var h' := Execute(h, cmd, buf, client, env).0; Recorded(decode, h'.log, h'.data)
  {
    var marked := Marked(h, cmd);
    assert Blocking.Valid(marked) by { SameValid(h, marked); }
    hide Recorded, Framed, Repeatable, Blocking.Valid, ToAll, Dirtied, DataOp;
    if IsDataCmd(cmd) {
      DataRecorded(decode, h, cmd, buf, env.now);
    } else {
      OthersChangeNothing(marked, cmd, client, env);
      hide Dispatch;
    }
  }

  lemma DataRecorded(decode: Decoder, h: Handler, cmd: Cmd, buf: Bytes, now: nat)
    requires Recorded(decode, h.log, h.data) && Framed(decode, cmd, buf) && Repeatable(h.data, cmd) && IsDataCmd(cmd)
    ensures var (data', out) := DataOp(h.data, cmd, now);
            Recorded(decode, if ToBeBroadcast(cmd) && out.Reply? then h.log + buf else h.log, data')
  {
    hide Recorded, Framed, Repeatable, AllCovered, DataOp;
    RecordedRepeats(decode, h, cmd, now);
    var (data', out) := DataOp(h.data, cmd, now);
    if ToBeBroadcast(cmd) && out.Reply? {
      LoggedRecorded(decode, h.log, h.data, cmd, buf, now);
    } else {
      UnloggedRecorded(decode, h.log, h.data, data');
    }
  }

  lemma RecordedRepeats(decode: Decoder, h: Handler, cmd: Cmd, now: nat)
    requires Recorded(decode, h.log, h.data) && Repeatable(h.data, cmd) && IsDataCmd(cmd)
    ensures Repeats(h.data, cmd, now) && Timeless(DataOp(h.data, cmd, now).0) && AllCovered(DataOp(h.data, cmd, now).0)
  {
    DataOpRepeats(h.data, cmd, now);
    DataOpCovered(h.data, cmd, now);
    StaysTimeless(h.data, cmd, now);
  }

  // ----- Batches and events

  /** Every command of the batch is repeatable when its turn comes. */
  ghost predicate BatchRepeatable(h: Handler, queue: seq<Queued>, client: Client, envs: seq<Env>)
    requires NoExec(queue) && |envs| == |queue|
  {
    queue == [] ||
    var n := |queue| - 1;
    && BatchRepeatable(h, queue[..n], client, envs[..n])
    && Repeatable(ExecuteAll(h, queue[..n], client, envs[..n]).0.data, queue[n].cmd)
  }

  lemma {:induction false} BatchRecorded(decode: Decoder, h: Handler, queue: seq<Queued>, client: Client, envs: seq<Env>)
    requires Blocking.Valid(h) && NoExec(queue) && |envs| == |queue| && BatchEnabled(h, queue, client, envs)
    requires Recorded(decode, h.log, h.data) && QueueFramed(decode, queue) && BatchRepeatable(h, queue, client, envs)
    ensures var h' := ExecuteAll(h, queue, client, envs).0; Recorded(decode, h'.log, h'.data)
  {
    if queue != [] {
      hide Blocking.Valid, Execute, Recorded, Framed, Repeatable;
      var n := |queue| - 1;
      BatchRecorded(decode, h, queue[..n], client, envs[..n]);
      BatchValid(h, queue[..n], client, envs[..n]);
      ExecuteRecorded(decode, ExecuteAll(h, queue[..n], client, envs[..n]).0, queue[n].cmd, queue[n].buf, client, envs[n]);
    }
  }

  /** The log and the key space agree, and what is queued comes from frames. */
  ghost predicate LogAgrees(decode: Decoder, h: Handler) {
    Recorded(decode, h.log, h.data) && QueuesFramed(decode, h.reg.txns)
  }

  /** Requests come from frames and execute repeatable commands; no list sweep serves a waiter. */
  ghost predicate EventRepeatable(decode: Decoder, h: Handler, e: Event)
    requires Blocking.Valid(h) && Enabled(h, e)
  {
    match e
    case Request(client, Some(c), buf, envs) =>
      && Framed(decode, c, buf)
      && (if client !in h.reg.txns then Repeatable(h.data, c)
          else c.Exec? && !IsAnyDirty(h.reg.watches, client) ==>
            (QueueableNoExec(h.reg.txns[client]); BatchRepeatable(Runs.Drained(h, client), h.reg.txns[client], client, envs)))
    case ListSweep(_) => h.flagList ==> forall key :: Matches(h, key) == 0
    case _ => true
  }

  lemma ExecLogAgrees(decode: Decoder, h: Handler, client: Client, envs: seq<Env>)
    requires Blocking.Valid(h) && LogAgrees(decode, h)
    requires client in h.reg.txns && NoExec(h.reg.txns[client]) && |envs| == |h.reg.txns[client]|
    requires !IsAnyDirty(h.reg.watches, client) ==>
               && BatchEnabled(Runs.Drained(h, client), h.reg.txns[client], client, envs)
               && BatchRepeatable(Runs.Drained(h, client), h.reg.txns[client], client, envs)
    ensures LogAgrees(decode, ExecOp(h, client, envs).0)
  {
    ExecOpTxns(h, client, envs);
    if !IsAnyDirty(h.reg.watches, client) {
      assert Blocking.Valid(Runs.Drained(h, client)) by { SameValid(h, Runs.Drained(h, client)); }
      hide Blocking.Valid;
      BatchRecorded(decode, Runs.Drained(h, client), h.reg.txns[client], client, envs);
    }
    hide Blocking.Valid, Recorded, ExecuteAll, QueueFramed, BatchEnabled, BatchRepeatable, IsAnyDirty, Unwatched;
  }

  lemma OwnTxnFramed(decode: Decoder, txns: map<Client, seq<Queued>>, txns': map<Client, seq<Queued>>, client: Client)
    requires QueuesFramed(decode, txns) && OwnTxnChange(txns, txns', client)
    ensures QueuesFramed(decode, txns')
  {
  }

  lemma EnqueueFramed(decode: Decoder, txns: map<Client, seq<Queued>>, client: Client, cmd: Cmd, buf: Bytes)
    requires QueuesFramed(decode, txns) && client in txns && Framed(decode, cmd, buf)
    ensures QueuesFramed(decode, txns[client := txns[client] + [Queued(cmd, buf)]])
  {
    assert QueueFramed(decode, txns[client]);
    hide Framed;
  }

  lemma RequestLogAgrees(decode: Decoder, h: Handler, client: Client, c: Cmd, buf: Bytes, envs: seq<Env>)
    requires Blocking.Valid(h) && LogAgrees(decode, h) && (client in h.reg.txns ==> NoExec(h.reg.txns[client]))
    requires var e := Request(client, Some(c), buf, envs); Enabled(h, e) && EventRepeatable(decode, h, e)
    ensures LogAgrees(decode, Handle(h, Some(c), buf, client, envs).0)
  {
    hide Blocking.Valid, Execute, ExecOp, Recorded, Framed, QueuesFramed, BatchEnabled, CmdEnabled, Unwatched, BatchRepeatable, Repeatable;
    if client !in h.reg.txns {
      ExecuteRecorded(decode, h, c, buf, client, envs[0]);
      ExecuteTxns(h, c, buf, client, envs[0]);
      OwnTxnFramed(decode, h.reg.txns, Execute(h, c, buf, client, envs[0]).0.reg.txns, client);
    } else if c.Exec? {
      ExecLogAgrees(decode, h, client, envs);
    } else if c.Discard? {
      OwnTxnFramed(decode, h.reg.txns, h.reg.txns - {client}, client);
    } else if !c.Watch? {
      EnqueueFramed(decode, h.reg.txns, client, c, buf);
    }
  }

  lemma SweepKeepsLog(h: Handler, order: seq<Key>)
    requires Blocking.Valid(h) && Enumerates(order, h.reg.lists.Keys)
    ensures SweepLists(h, order).log == h.log && SweepLists(h, order).reg.txns == h.reg.txns
    ensures (h.flagList ==> forall key :: Matches(h, key) == 0) ==> SweepLists(h, order).data == h.data
  {
    var h' := SweepLists(h, order);
    if h.flagList {
      var ts := ChosenWaiters(h.reg, h.data, order);
      SweepDeals(h, order);
      RemovedAllWatches(h.reg, ts);
      hide Blocking.Valid, Released, RemovedAll, ChosenWaiters, DealtOnKey, NoDup, SameButItems;
      if forall key :: Matches(h, key) == 0 {
        forall key: Key
          ensures Lookup(h'.data, key) == Lookup(h.data, key)
        {
          SweepKeepsKey(h, order, key);
        }
        SameLookups(h.data, h'.data);
      }
    }
  }

  lemma SameLookups(data: Data, data': Data)
    requires forall key: Key :: Lookup(data', key) == Lookup(data, key)
    ensures data' == data
  {
    assert forall key: Key :: (key in data <==> Lookup(data, key).Some?) && (key in data' <==> Lookup(data', key).Some?);
  }

  lemma StreamSweepKeepsLog(h: Handler, order: seq<Ts>)
    requires Blocking.Valid(h) && NoDup(order)
    ensures var h' := SweepStreams(h, order); h'.data == h.data && h'.log == h.log && h'.reg.txns == h.reg.txns
  {
    if h.flagStream {
      ReadersReleased(h, order);
      RemovedAllWatches(h.reg, ChosenReaders(h.reg, h.data, order));
      hide Blocking.Valid, Released, RemovedAll, ChosenReaders;
    }
  }

  lemma EventLogAgrees(decode: Decoder, h: Handler, e: Event)
    requires Blocking.Valid(h) && Enabled(h, e) && EventRepeatable(decode, h, e) && LogAgrees(decode, h)
    ensures LogAgrees(decode, Apply(h, e))
  {
    match e
    case Request(client, cmd, buf, envs) =>
      assert client in h.reg.txns ==> AllQueueable(h.reg.txns[client]);
      hide Blocking.Valid, LogAgrees, BatchEnabled, BatchRepeatable, CmdEnabled, Framed, Repeatable;
      if cmd.Some? {
        hide Handle;
        RequestLogAgrees(decode, h, client, cmd.value, buf, envs);
      }
    case ListSweep(keys) =>
      SweepKeepsLog(h, keys);
      hide Blocking.Valid, SweepLists, Recorded, QueuesFramed;
    case StreamSweep(readers) =>
      StreamSweepKeepsLog(h, readers);
      hide Blocking.Valid, SweepStreams, Recorded, QueuesFramed;
    case Timer(deadline) =>
      hide Blocking.Valid, Recorded, QueuesFramed;
  }

  // ----- Runs

  ghost predicate RunRepeatable(decode: Decoder, events: seq<Event>)
    requires Possible(events)
  {
    events == [] ||
    var n := |events| - 1;
    RunRepeatable(decode, events[..n]) && EventRepeatable(decode, Runs.After(events[..n]), events[n])
  }

  lemma NothingRecorded(decode: Decoder)
    ensures LogAgrees(decode, START)
  {
    assert forall envs: Surroundings :: Rebuilt(decode, [], START.data, envs);
    assert Records(decode, [], START.log, START.data);
  }

  lemma {:induction false} RunLogAgrees(decode: Decoder, events: seq<Event>)
    requires Possible(events) && RunRepeatable(decode, events)
    ensures LogAgrees(decode, Runs.After(events))
  {
    if events == [] {
      NothingRecorded(decode);
    } else {
      var n := |events| - 1;
      RunLogAgrees(decode, events[..n]);
      hide LogAgrees, Enabled, EventRepeatable;
      EventLogAgrees(decode, Runs.After(events[..n]), events[n]);
    }
  }

  /**
   * Replay against live: after every run of repeatable commands the log is a sequence of frames. Reading it back in any
   * pieces delivers all of them, but for the last exactly when the cut is late. Replaying what is delivered, whatever
   * the clock says then, gives the live key space without the keys that hold an empty stream; or, when the cut is late,
   * a key space from which the last logged command alone leads there.
   */
  lemma LogRebuildsKeySpace(decode: Decoder, events: seq<Event>, chunks: seq<Bytes>) returns (frames: seq<RespType>)
    requires Possible(events) && RunRepeatable(decode, events)
    requires Concat(chunks) == Runs.After(events).log
    ensures Records(decode, frames, Runs.After(events).log, Runs.After(events).data)
    ensures LateCut(chunks) ==> frames != []
    ensures Reread(chunks).1 == if LateCut(chunks) then frames[..|frames| - 1] else frames
    ensures forall envs: Surroundings :: Leads(decode, frames, chunks, envs, Lasting(Runs.After(events).data))
  {
    var h := Runs.After(events);
    RunLogAgrees(decode, events);
    frames :| Records(decode, frames, h.log, h.data);
    hide Possible, RunRepeatable, Receive, Reread, PrintAll, WellFormed, LateCut, Replayed;
    AllFrames(frames, chunks);
    forall envs: Surroundings
      ensures Leads(decode, frames, chunks, envs, Lasting(h.data))
    {
      assert Rebuilt(decode, frames, h.data, envs);
    }
  }

  /** What the file replays to, or what one more frame makes of it when the cut is late. */
  ghost predicate Leads(decode: Decoder, frames: seq<RespType>, chunks: seq<Bytes>, envs: Surroundings, data: Data) {
    var replayed := ReplayedFile(chunks, decode, envs);
    if LateCut(chunks) then
      frames != [] && Replayed(replayed, frames[|frames| - 1], decode, At(envs, |frames| - 1)).data == data
    else replayed.data == data
  }

  /** A file of frames read back in pieces. */
  lemma AllFrames(frames: seq<RespType>, chunks: seq<Bytes>)
    requires AllWellFormed(frames) && Concat(chunks) == PrintAll(frames)
    ensures LateCut(chunks) ==> frames != []
    ensures Reread(chunks).1 == if LateCut(chunks) then frames[..|frames| - 1] else frames
  {
    FramesCut(frames, chunks);
    RereadIsReceive(chunks);
  }

  /**
   * A log that ends with a bulk body of `n` bytes in three pieces loses its last command exactly when the second piece
   * takes the cursor to the end.
   */
  lemma LogInThreePieces(decode: Decoder, events: seq<Event>, prefix: Bytes, n: nat, a: Bytes, b: Bytes, c: Bytes)
    returns (frames: seq<RespType>)
    requires Possible(events) && RunRepeatable(decode, events)
    requires Runs.After(events).log == prefix + a + b + c && BodyBegins(prefix, n)
    requires |a| + |b| + |c| == n + 2 && a != [] && b != [] && c != []
    ensures frames != [] && Records(decode, frames, Runs.After(events).log, Runs.After(events).data)
    ensures Reread([prefix + a, b, c]).1 == if 2 * |a| + |b| >= n + 2 then frames[..|frames| - 1] else frames
  {
    InThree(prefix + a, b, c);
    ThreePieces(prefix, n, a, b, c);
    frames := LogRebuildsKeySpace(decode, events, [prefix + a, b, c]);
    hide Reread, LateCut, PrintAll, Runs.After, Possible, RunRepeatable, BodyBegins;
    assert |PrintAll(frames)| > 0;
    if frames == [] {
      NothingPrinted();
    }
  }

  lemma NothingPrinted()
    ensures PrintAll([]) == []
  {
  }

  /** A file read in one piece is never late. */
  lemma OnePieceRebuilds(decode: Decoder, events: seq<Event>, envs: Surroundings)
    requires Possible(events) && RunRepeatable(decode, events)
    ensures ReplayedFile([Runs.After(events).log], decode, envs).data == Lasting(Runs.After(events).data)
  {
    var h := Runs.After(events);
    RunLogAgrees(decode, events);
    var frames :| Records(decode, frames, h.log, h.data);
    RoundTrip(frames);
    RereadIsReceive([h.log]);
    assert Rebuilt(decode, frames, h.data, envs);
  }

  // ----- What the log misses

  /** Serving a waiter changes the key space and not the log, so such a log no longer rebuilds it. */
  lemma ServedPopIsNotLogged(h: Handler, order: seq<Key>, key: Key)
    requires Blocking.Valid(h) && Enumerates(order, h.reg.lists.Keys) && h.flagList && Matches(h, key) > 0
    ensures var h' := SweepLists(h, order); h'.log == h.log && Lasting(h'.data) != Lasting(h.data)
  {
    SweepKeepsLog(h, order);
    SweepKeepsKey(h, order, key);
    SweepMatches(h, order);
    hide Blocking.Valid, SweepLists, MatchedOnKey;
    assert key in h.data && h.data[key].value.List?;
    assert key in Lasting(h.data);
  }

  /** Of the commands that fail only SETBIT, of neither 0 nor 1 and on a new key, changes the lasting key space. */
  lemma FailedWrites(data: Data, cmd: Cmd, now: nat)
    requires Timeless(data) && AllCovered(data) && IsDataCmd(cmd) && DataOp(data, cmd, now).1.Failure?
    ensures Lasting(DataOp(data, cmd, now).0) == Lasting(data) <==> !(cmd.Setbit? && cmd.key !in data)
  {
    DataOpRepeats(data, cmd, now);
    if cmd.Setbit? && cmd.key !in data {
      assert cmd.key in Lasting(DataOp(data, cmd, now).0) && cmd.key !in Lasting(data);
    }
    hide AllCovered, SortedSets.Added, SortedSets.Removed, Bitmaps.Write;
  }
}
