/** A replica that applies what it is sent, writes and GETACKs alike, follows its master. */
module Followers {
  import opened Base
  import opened Commands
  import opened Registry
  import opened Store
  import opened Handler
  import opened Runs
  import opened Resp
  import opened RespChunks
  import opened RespLateness
  import opened RespRoundTrip
  import opened Replay
  import opened Replicas

  /** `REPLCONF GETACK *` as `cmd_wait` builds it. */
  const REPLCONF: Bytes := [0x52, 0x45, 0x50, 0x4C, 0x43, 0x4F, 0x4E, 0x46]
  const GETACK: Bytes := [0x47, 0x45, 0x54, 0x41, 0x43, 0x4B]
  const ASTERISK: Bytes := [0x2A]
  const ASK: RespType := Array(3, [BulkStr(8, Some(REPLCONF)), BulkStr(6, Some(GETACK)), BulkStr(1, Some(ASTERISK))])

  /** All the bytes the connection of a replica carries. */
  function Wire(h: Handler, replica: Client): Bytes {
    FeedOf(h.queue, replica, PrintedForm(ASK))
  }

  /** The decoder takes the frame for what it is, or for no command. */
  predicate KnowsAsk(decode: Decoder) {
    decode(ASK) == None || decode(ASK) == Some(ReplconfGetAck(true))
  }

  /** The frames without the GETACKs, printed. */
  function WritesOf(sent: seq<RespType>): Bytes {
    if sent == [] then []
    else WritesOf(sent[..|sent| - 1]) + (if sent[|sent| - 1] == ASK then [] else PrintedForm(sent[|sent| - 1]))
  }

  /** The wire is these frames, which without the GETACKs are the log, and they replay to the lasting key space. */
  ghost predicate SentAs(decode: Decoder, sent: seq<RespType>, h: Handler, replica: Client) {
    Records(decode, sent, Wire(h, replica), h.data) && WritesOf(sent) == h.log
  }

  ghost predicate Followed(decode: Decoder, h: Handler, replica: Client) {
    exists sent :: SentAs(decode, sent, h, replica)
  }

  lemma AskWellFormed()
    ensures WellFormed(ASK)
  {
  }

  /** A GETACK changes neither the key space nor the transactions of the replica. */
  lemma AskChangesNothing(h: Handler, decode: Decoder, env: nat -> Env)
    requires Ready(h) && KnowsAsk(decode)
    ensures var h' := Replayed(h, ASK, decode, env);
            h'.data == h.data && (0 !in h.reg.txns ==> 0 !in h'.reg.txns)
  {
    hide Dirtied, ToAll, PrintedForm;
  }

  lemma AskRebuilt(decode: Decoder, sent: seq<RespType>, data: Data, envs: Surroundings)
    requires Rebuilt(decode, sent, data, envs) && KnowsAsk(decode)
    ensures Rebuilt(decode, sent + [ASK], data, envs)
  {
    LastReplayed(sent, ASK, decode, envs);
    AskChangesNothing(ReplayedAll(START, sent, decode, envs), decode, At(envs, |sent|));
    hide ReplayedAll, Lasting, Replayed, KnowsAsk;
  }

  lemma LastReplayed(sent: seq<RespType>, v: RespType, decode: Decoder, envs: Surroundings)
    ensures Ready(START)
    ensures ReplayedAll(START, sent + [v], decode, envs) == Replayed(ReplayedAll(START, sent, decode, envs), v, decode, At(envs, |sent|))
  {
    assert (sent + [v])[..|sent|] == sent;
    hide Replayed;
  }

  lemma AskRecords(decode: Decoder, sent: seq<RespType>, wire: Bytes, data: Data)
    requires Records(decode, sent, wire, data) && KnowsAsk(decode)
    ensures Records(decode, sent + [ASK], wire + PrintedForm(ASK), data)
  {
    AskWellFormed();
    LogGrows(sent, ASK);
    hide PrintAll, WellFormed, PrintedForm, Rebuilt, KnowsAsk;
    forall envs: Surroundings
      ensures Rebuilt(decode, sent + [ASK], data, envs)
    {
      AskRebuilt(decode, sent, data, envs);
    }
  }

  lemma WritesLast(sent: seq<RespType>, v: RespType)
    ensures WritesOf(sent + [v]) == WritesOf(sent) + (if v == ASK then [] else PrintedForm(v))
  {
    assert (sent + [v])[..|sent|] == sent;
  }

  // ----- Steps

  /** A GETACK is sent. */
  lemma AskedFollowed(decode: Decoder, sent: seq<RespType>, h: Handler, h': Handler, replica: Client)
    requires SentAs(decode, sent, h, replica) && KnowsAsk(decode)
    requires h'.data == h.data && h'.log == h.log && Wire(h', replica) == Wire(h, replica) + PrintedForm(ASK)
    ensures Followed(decode, h', replica)
  {
    hide Records, Wire, KnowsAsk, PrintedForm, WritesOf;
    AskRecords(decode, sent, Wire(h, replica), h.data);
    WritesLast(sent, ASK);
    assert SentAs(decode, sent + [ASK], h', replica);
  }

  /** A write is sent. */
  lemma WriteFollowed(decode: Decoder, sent: seq<RespType>, v: RespType, cmd: Cmd, now: nat, h: Handler, h': Handler, replica: Client)
    requires SentAs(decode, sent, h, replica) && WellFormed(v) && decode(v) == Some(cmd) && v != ASK
    requires IsDataCmd(cmd) && ToBeBroadcast(cmd) && Repeats(h.data, cmd, now)
    requires DataOp(h.data, cmd, now).1.Reply? && h'.data == DataOp(h.data, cmd, now).0
    requires h'.log == h.log + PrintedForm(v) && Wire(h', replica) == Wire(h, replica) + PrintedForm(v)
    ensures Followed(decode, h', replica)
  {
    hide Records, Wire, PrintedForm, WritesOf, WellFormed, Repeats, DataOp;
    RecordsGrow(decode, sent, v, Wire(h, replica), h.data, cmd, now);
    WritesLast(sent, v);
    assert SentAs(decode, sent + [v], h', replica);
  }

  /** Nothing is sent, and the lasting key space stays. */
  lemma SameFollowed(decode: Decoder, h: Handler, h': Handler, replica: Client)
    requires Followed(decode, h, replica)
    requires Lasting(h'.data) == Lasting(h.data) && h'.log == h.log && Wire(h', replica) == Wire(h, replica)
    ensures Followed(decode, h', replica)
  {
    var sent :| SentAs(decode, sent, h, replica);
    RecordsKeep(decode, sent, Wire(h, replica), h.data, h'.data);
    hide Records, Wire;
    assert SentAs(decode, sent, h', replica);
  }

  lemma ExecuteFollowed(decode: Decoder, h: Handler, cmd: Cmd, buf: Bytes, client: Client, env: Env, replica: Client)
    requires Blocking.Valid(h) && (cmd.Exec? ==> client !in h.reg.txns) && NoDup(env.slaves) && replica in env.slaves
    requires Recorded(decode, h.log, h.data) && Framed(decode, cmd, buf) && Repeatable(h.data, cmd)
    requires KnowsAsk(decode) && Followed(decode, h, replica)
    ensures Followed(decode, Execute(h, cmd, buf, client, env).0, replica)
  {
    var (h', out) := Execute(h, cmd, buf, client, env);
    ExecuteFeeds(h, cmd, buf, client, env, replica, PrintedForm(ASK));
    ExecuteActs(h, cmd, buf, client, env);
    if IsDataCmd(cmd) {
      RecordedRepeats(decode, h, cmd, env.now);
    }
    hide Blocking.Valid, Execute, Recorded, Repeatable, NoDup;
    Sent(decode, h, cmd, buf, env, h', out, replica);
  }

  lemma Sent(decode: Decoder, h: Handler, cmd: Cmd, buf: Bytes, env: Env, h': Handler, out: Output, replica: Client)
    requires KnowsAsk(decode) && Followed(decode, h, replica) && Framed(decode, cmd, buf)
    requires if IsDataCmd(cmd) then (h'.data, out) == DataOp(h.data, cmd, env.now) && Repeats(h.data, cmd, env.now)
             else h'.data == h.data && !Logs(cmd, out)
    requires h'.log == h.log + (if Logs(cmd, out) then buf else [])
    requires Wire(h', replica) == Wire(h, replica) + SentFor(cmd, out, buf, env, PrintedForm(ASK))
    ensures Followed(decode, h', replica)
  {
    hide DataOp, Wire, PrintedForm, WellFormed, Records, WritesOf;
    var sent :| SentAs(decode, sent, h, replica);
    assert Wire(h, replica) + [] == Wire(h, replica) && h.log + [] == h.log;
    if Logs(cmd, out) {
      var v :| WellFormed(v) && PrintedForm(v) == buf && decode(v) == Some(cmd);
      assert v != ASK;
      hide KnowsAsk, Repeats, SentAs, Followed;
      WriteFollowed(decode, sent, v, cmd, env.now, h, h', replica);
    } else {
      hide SentAs, Followed;
      if Asks(cmd, env) {
        AskedFollowed(decode, sent, h, h', replica);
      } else {
        SameFollowed(decode, h, h', replica);
      }
    }
  }

  lemma BatchFront(decode: Decoder, queue: seq<Queued>, envs: seq<Env>, replica: Client)
    requires NoExec(queue) && |envs| == |queue| > 0 && QueueFramed(decode, queue) && Connected(envs, replica)
    ensures var n := |queue| - 1;
            && NoExec(queue[..n]) && QueueFramed(decode, queue[..n]) && Connected(envs[..n], replica)
            && !queue[n].cmd.Exec? && Framed(decode, queue[n].cmd, queue[n].buf)
            && NoDup(envs[n].slaves) && replica in envs[n].slaves
  {
    hide Framed, NoDup;
  }

  lemma {:induction false} BatchFollowed(decode: Decoder, h: Handler, queue: seq<Queued>, client: Client, envs: seq<Env>, replica: Client)
    requires Blocking.Valid(h) && NoExec(queue) && |envs| == |queue| && BatchEnabled(h, queue, client, envs)
    requires Recorded(decode, h.log, h.data) && QueueFramed(decode, queue) && BatchRepeatable(h, queue, client, envs)
    requires Connected(envs, replica) && KnowsAsk(decode) && Followed(decode, h, replica)
    ensures Followed(decode, ExecuteAll(h, queue, client, envs).0, replica)
  {
    if queue != [] {
      var n := |queue| - 1;
      BatchFront(decode, queue, envs, replica);
      hide Blocking.Valid, Execute, Recorded, Framed, Repeatable, Followed, KnowsAsk, QueueFramed, Connected, NoExec, NoDup, CmdEnabled;
      BatchFollowed(decode, h, queue[..n], client, envs[..n], replica);
      BatchRecorded(decode, h, queue[..n], client, envs[..n]);
      BatchValid(h, queue[..n], client, envs[..n]);
      ExecuteFollowed(decode, ExecuteAll(h, queue[..n], client, envs[..n]).0, queue[n].cmd, queue[n].buf, client, envs[n], replica);
    }
  }

  lemma ExecFollowed(decode: Decoder, h: Handler, client: Client, envs: seq<Env>, replica: Client)
    requires Blocking.Valid(h) && LogAgrees(decode, h) && KnowsAsk(decode) && Followed(decode, h, replica) && Connected(envs, replica)
    requires client in h.reg.txns && NoExec(h.reg.txns[client]) && |envs| == |h.reg.txns[client]|
    requires !IsAnyDirty(h.reg.watches, client) ==>
               && BatchEnabled(Runs.Drained(h, client), h.reg.txns[client], client, envs)
               && BatchRepeatable(Runs.Drained(h, client), h.reg.txns[client], client, envs)
    ensures Followed(decode, ExecOp(h, client, envs).0, replica)
  {
    hide Recorded, Followed, KnowsAsk, BatchEnabled, BatchRepeatable, ExecuteAll, Unwatched, IsAnyDirty, Connected, QueueFramed;
    if IsAnyDirty(h.reg.watches, client) {
      SameFollowed(decode, h, EndTxn(h, client), replica);
    } else {
      var drained := Runs.Drained(h, client);
      assert Blocking.Valid(drained) by { SameValid(h, drained); }
      hide Blocking.Valid;
      SameFollowed(decode, h, drained, replica);
      BatchFollowed(decode, drained, h.reg.txns[client], client, envs, replica);
      var h' := ExecuteAll(drained, h.reg.txns[client], client, envs).0;
      SameFollowed(decode, h', EndTxn(h', client), replica);
    }
  }

  lemma RequestFollowed(decode: Decoder, h: Handler, client: Client, c: Cmd, buf: Bytes, envs: seq<Env>, replica: Client)
    requires Blocking.Valid(h) && LogAgrees(decode, h) && (client in h.reg.txns ==> NoExec(h.reg.txns[client]))
    requires var e := Request(client, Some(c), buf, envs); Enabled(h, e) && EventRepeatable(decode, h, e)
    requires KnowsAsk(decode) && Followed(decode, h, replica) && Connected(envs, replica)
    ensures Followed(decode, Handle(h, Some(c), buf, client, envs).0, replica)
  {
    hide Blocking.Valid, Execute, ExecOp, Recorded, Framed, Repeatable, Followed, KnowsAsk, BatchEnabled, BatchRepeatable, CmdEnabled, Unwatched;
    if client !in h.reg.txns {
      ExecuteFollowed(decode, h, c, buf, client, envs[0], replica);
    } else if c.Exec? {
      ExecFollowed(decode, h, client, envs, replica);
    } else if c.Discard? {
      SameFollowed(decode, h, EndTxn(h, client), replica);
    } else if !c.Watch? {
      SameFollowed(decode, h, Enqueue(h, client, c, buf), replica);
    }
  }

  lemma EventFollowed(decode: Decoder, h: Handler, e: Event, replica: Client)
    requires Blocking.Valid(h) && Enabled(h, e) && EventRepeatable(decode, h, e) && LogAgrees(decode, h)
    requires KnowsAsk(decode) && Followed(decode, h, replica) && (e.Request? ==> Connected(e.envs, replica))
    ensures Followed(decode, Apply(h, e), replica)
  {
    hide Followed, KnowsAsk, Handle, SweepLists, SweepStreams, Expire, BatchEnabled, BatchRepeatable, CmdEnabled, Repeatable, Framed;
    match e
    case Request(client, cmd, buf, envs) =>
      assert client in h.reg.txns ==> Blocking.AllQueueable(h.reg.txns[client]);
      hide Blocking.Valid, LogAgrees;
      if cmd.Some? {
        RequestFollowed(decode, h, client, cmd.value, buf, envs, replica);
      } else {
        SameFollowed(decode, h, Apply(h, e), replica) by { NoCommand(h, client, buf, envs); }
      }
    case ListSweep(keys) =>
      SweepKeepsLog(h, keys);
      OthersQuiet(h, e, replica, PrintedForm(ASK));
      hide Blocking.Valid;
      SameFollowed(decode, h, Apply(h, e), replica);
    case StreamSweep(readers) =>
      StreamSweepKeepsLog(h, readers);
      OthersQuiet(h, e, replica, PrintedForm(ASK));
      hide Blocking.Valid;
      SameFollowed(decode, h, Apply(h, e), replica);
    case Timer(deadline) =>
      OthersQuiet(h, e, replica, PrintedForm(ASK));
      assert Apply(h, e).data == h.data by { ExpireKeepsData(h, deadline); }
      hide Blocking.Valid;
      SameFollowed(decode, h, Apply(h, e), replica);
  }

  lemma NoCommand(h: Handler, client: Client, buf: Bytes, envs: seq<Env>)
    requires |envs| == EnvsNeeded(h, None, client) && (client in h.reg.txns ==> NoExec(h.reg.txns[client]))
    ensures Handle(h, None, buf, client, envs).0 == h
  {
  }

  // ----- Runs

  lemma {:induction false} RunFollowed(decode: Decoder, events: seq<Event>, replica: Client)
    requires Possible(events) && RunRepeatable(decode, events) && AlwaysConnected(events, replica) && KnowsAsk(decode)
    ensures Followed(decode, Runs.After(events), replica)
  {
    if events == [] {
      assert forall envs: Surroundings :: Rebuilt(decode, [], START.data, envs);
      assert SentAs(decode, [], START, replica);
    } else {
      var n := |events| - 1;
      RunFollowed(decode, events[..n], replica);
      RunLogAgrees(decode, events[..n]);
      hide Followed, LogAgrees, Enabled, EventRepeatable, KnowsAsk, Connected;
      EventFollowed(decode, Runs.After(events[..n]), events[n], replica);
    }
  }

  /** What the replica makes of the pieces, or what one frame more would; a GETACK that is late loses nothing. */
  ghost predicate Follows(decode: Decoder, sent: seq<RespType>, chunks: seq<Bytes>, envs: Surroundings, data: Data) {
    var replayed := ReplayedFile(chunks, decode, envs);
    if LateCut(chunks) && (sent == [] || sent[|sent| - 1] != ASK) then
      sent != [] && Replayed(replayed, sent[|sent| - 1], decode, At(envs, |sent| - 1)).data == data
    else replayed.data == data
  }

  /**
   * In every run of repeatable commands a replica that is connected throughout is sent frames that, the GETACKs left
   * out, are the log. Applying them in whatever pieces they arrive, it reaches the master's lasting key space, or lacks
   * the last command: exactly when the cut is late and the last frame is no GETACK.
   */
  lemma ReplicaFollows(decode: Decoder, events: seq<Event>, replica: Client, chunks: seq<Bytes>) returns (sent: seq<RespType>)
    requires Possible(events) && RunRepeatable(decode, events) && AlwaysConnected(events, replica) && KnowsAsk(decode)
    requires Concat(chunks) == Wire(Runs.After(events), replica)
    ensures SentAs(decode, sent, Runs.After(events), replica)
    ensures LateCut(chunks) ==> sent != []
    ensures Reread(chunks).1 == if LateCut(chunks) then sent[..|sent| - 1] else sent
    ensures forall envs: Surroundings :: Follows(decode, sent, chunks, envs, Lasting(Runs.After(events).data))
  {
    var h := Runs.After(events);
    RunFollowed(decode, events, replica);
    sent :| SentAs(decode, sent, h, replica);
    hide Possible, RunRepeatable, Receive, Reread, PrintAll, WellFormed, LateCut, Replayed, KnowsAsk, Wire, WritesOf, Rebuilt, Lasting;
    AllFrames(sent, chunks);
    forall envs: Surroundings
      ensures Follows(decode, sent, chunks, envs, Lasting(h.data))
    {
      PiecesFollow(decode, sent, chunks, envs, h.data);
    }
  }

  lemma PiecesFollow(decode: Decoder, sent: seq<RespType>, chunks: seq<Bytes>, envs: Surroundings, data: Data)
    requires Rebuilt(decode, sent, data, envs) && KnowsAsk(decode) && (LateCut(chunks) ==> sent != [])
    requires Reread(chunks).1 == if LateCut(chunks) then sent[..|sent| - 1] else sent
    ensures Follows(decode, sent, chunks, envs, Lasting(data))
  {
    hide Reread, LateCut, Replayed, KnowsAsk, Lasting;
    if LateCut(chunks) {
      AskChangesNothing(ReplayedAll(START, sent[..|sent| - 1], decode, envs), decode, At(envs, |sent| - 1));
    }
  }
}
