/** src/aof.rs: the replay loop, chunk by chunk into the parser and value by value into the handler. */
module Aof {
  import opened Base
  import opened Commands
  import opened Handler
  import opened Resp
  import opened RespParsers
  import opened CmdHandlers
  import opened Replay

  /** The surroundings of the commands value number `n` makes the handler execute. */
  method EnvsOf(h: CmdHandler, request: Option<Cmd>, envs: Surroundings, n: nat) returns (env: seq<Env>)
    ensures env == seq(EnvsNeeded(h.View(), request, 0), j requires 0 <= j => envs(n, j))
  {
    var needed := if 0 in h.registry.backlogTxn then (if request == Some(Exec) then |h.registry.backlogTxn[0]| else 0) else 1;
    env := seq(needed, j requires 0 <= j => envs(n, j));
  }

  /** One value: decoded, and handed to `handle` as client 0 with its printed form. */
  method HandleValue(v: RespType, decode: Decoder, envs: Surroundings, n: nat, handler: CmdHandler)
    requires Ready(handler.View()) && forall i, j :: NoDup(envs(i, j).slaves)
    modifies handler, handler.registry
    ensures handler.View() == Replayed(old(handler.View()), v, decode, At(envs, n))
  {
    hide Handle;
    var request := decode(v);
    var env := EnvsOf(handler, request, envs, n);
    ghost var env' := (j: nat) => envs(n, j);
    assert env == seq(|env|, j requires 0 <= j => env'(j));
    var _ := handler.HandleRequest(request, PrintedForm(v), 0, env);
  }

  /** The inner loop: parse, and hand what is completed to the handler, until nothing is. `vs` has been handed over before. */
  method HandleCompleted(ghost vs: seq<RespType>, handled: nat, decode: Decoder, envs: Surroundings, parser: RespParser, handler: CmdHandler)
    returns (n: nat)
    requires Resp.Valid(parser.View()) && handled == |vs| && Ready(START)
    requires handler.View() == ReplayedAll(START, vs, decode, envs) && forall i, j :: NoDup(envs(i, j).slaves)
    modifies parser, handler, handler.registry
    ensures Resp.Valid(parser.View())
    ensures var (p, more, _) := Deliver(old(parser.View()));
            && parser.View() == p && n == |vs + more|
            && handler.View() == ReplayedAll(START, vs + more, decode, envs)
  {
    hide Deliver, Replay.Replayed, Resp.Valid, Ready;
    ghost var all := Deliver(parser.View());
    ghost var done := vs;
    n := handled;
    while true
      invariant Resp.Valid(parser.View()) && n == |done|
      invariant var (p, rest, _) := Deliver(parser.View()); all.0 == p && vs + all.1 == done + rest
      invariant handler.View() == ReplayedAll(START, done, decode, envs)
      decreases Unread(parser.View()), Rank(parser.status), |parser.stack| + |parser.completed|
    {
      var v, _ := parser.NextValue();
      if v.None? {
        break;
      }
      assert done + ([v.value] + Deliver(parser.View()).1) == (done + [v.value]) + Deliver(parser.View()).1;
      HandleValue(v.value, decode, envs, n, handler);
      assert (done + [v.value])[..n] == done;
      done, n := done + [v.value], n + 1;
    }
    assert done + [] == done;
  }

  /** `aof_replay`, the file being given as the chunks it is read in. */
  method AofReplay(chunks: seq<Bytes>, decode: Decoder, envs: Surroundings, parser: RespParser, handler: CmdHandler)
    requires parser.View() == NEW && handler.View() == START && forall i, j :: NoDup(envs(i, j).slaves)
    modifies parser, handler, handler.registry
    ensures handler.View() == ReplayedFile(chunks, decode, envs)
  {
    assert Ready(START);
    hide Deliver, ReplayedAll, Resp.Valid, Ready;
    ghost var vs: seq<RespType> := [];
    var n := 0;
    assert ReplayedAll(START, [], decode, envs) == START by { NothingReplayed(decode, envs); }
    for i := 0 to |chunks|
      invariant (parser.View(), vs) == Reread(chunks[..i]) && n == |vs|
      invariant handler.View() == ReplayedAll(START, vs, decode, envs)
    {
      assert chunks[..i + 1][..i] == chunks[..i];
      FeedValid(parser.View(), chunks[i]);
      parser.FeedBuf(chunks[i]);
      ghost var more := Deliver(parser.View()).1;
      n := HandleCompleted(vs, n, decode, envs, parser, handler);
      vs := vs + more;
    }
    assert chunks[..|chunks|] == chunks;
  }

  lemma NothingReplayed(decode: Decoder, envs: Surroundings)
    ensures Ready(START) && ReplayedAll(START, [], decode, envs) == START
  {
  }
}
