/** src/commands/cmd_builder.rs: the commands of the model and how they are classified. */
module Commands {
  import opened Base
  import opened Bitmaps
  import opened SortedSets
  import opened Streams

  type Key = Bytes

  /** A connection; replicas are connections too. */
  type Client = nat

  datatype Expiry = EX(seconds: nat) | PX(millis: nat) | OtherOption

  /** One stream of an XREAD and the id to read past; `$` is the largest id. */
  datatype Cursor = Cursor(key: Key, id: Id)

  const DOLLAR_ID: Id := Id(TWO_64 - 1, TWO_64 - 1)

  datatype Cmd =
    | Ping
    | Set(key: Key, value: Bytes, expiry: Option<Expiry>)
    | Get(key: Key)
    | Rpush(key: Key, values: seq<Bytes>)
    | Lpush(key: Key, values: seq<Bytes>)
    | Llen(key: Key)
    | Lpop(key: Key, count: Option<nat>)
    | Blpop(key: Key, timeoutMs: Option<nat>)
    | Xadd(key: Key, id: IdArg, fields: seq<Bytes>)
    | Xread(count: Option<nat>, blockMs: Option<nat>, cursors: seq<Cursor>)
    | Incr(key: Key)
    | Setbit(key: Key, offset: nat, bit: nat)
    | Bitcount(key: Key, range: Option<Range>)
    | Bitop(and: bool, dest: Key, key1: Key, key2: Key)
    | Zadd(key: Key, score: real, member: Name)
    | Zrem(key: Key, member: Name)
    | Multi
    | Exec
    | Discard
    | Watch(keys: seq<Key>)
    | Unwatch
    | Wait(required: nat, timeoutMs: Option<nat>)
    | ReplconfAck(ackOffset: int)
    | ReplconfGetAck(any: bool)

  /** `to_be_broadcast`: what goes to the log and to the replicas. */
  predicate ToBeBroadcast(cmd: Cmd) {
    cmd.Set? || cmd.Lpush? || cmd.Rpush? || cmd.Lpop? || cmd.Blpop? || cmd.Incr? || cmd.Xadd? || cmd.Setbit? || cmd.Bitop?
  }

  predicate IsFlagList(cmd: Cmd) {
    cmd.Lpush? || cmd.Rpush?
  }

  predicate IsFlagStream(cmd: Cmd) {
    cmd.Xadd?
  }

  /** The key `set_dirty` marks, for the commands it lists; sorted-set commands are not among them. */
  function DirtyKey(cmd: Cmd): Option<Key> {
    match cmd
    case Set(key, _, _) => Some(key)
    case Lpush(key, _) => Some(key)
    case Rpush(key, _) => Some(key)
    case Lpop(key, _) => Some(key)
    case Blpop(key, _) => Some(key)
    case Incr(key) => Some(key)
    case Xadd(key, _, _) => Some(key)
    case Setbit(key, _, _) => Some(key)
    case Bitop(_, dest, _, _) => Some(dest)
    case _ => None
  }
}
