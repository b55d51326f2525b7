/** The key space and the commands that touch nothing else: src/commands/cmd_handler.rs, `cmd_set` to `cmd_bitop`. */
module Store {
  import opened Base
  import opened Decimal
  import opened Bitmaps
  import opened SortedSets
  import opened Streams
  import opened Commands

  datatype Value =
    | Str(text: Bytes)
    | List(items: seq<Bytes>)
    | Stream(entries: seq<Entry>)
    | Bits(bits: Bytes)
    | Scores(zset: ZSet)

  datatype Item = Item(value: Value, expiresAt: Option<nat>)

  type Data = map<Key, Item>

  /** Replies, before they are printed. */
  datatype Body =
    | Okay
    | Pong
    | QueuedReply
    | Int(n: int)
    | Bulk(bulk: Option<Bytes>)
    | Items(items: seq<Bytes>)
    | Popped(key: Key, item: Bytes)
    | NewIdReply(id: Id)
    | Pages(pages: seq<(Key, seq<Entry>)>)
    | NullArray
    | EmptyArray
    | Batch(bodies: seq<Body>)
    | ErrorReply(error: Error)
    | GetAck
    | AckOffset(offset: int)
    | Raw(bytes: Bytes)

  datatype Error = WrongType | BadId | NotAnInteger | TooLarge | BadBit | BadCommand | NoMulti | NestedMulti | WatchInMulti

  /** `Ok(Some(..))`, `Ok(None)` and `Err(..)`. */
  datatype Output = Reply(body: Body) | Silent | Failure(error: Error)

  // ----- Strings

  function Deadline(expiry: Option<Expiry>, now: nat): Option<nat> {
    match expiry
    case Some(EX(seconds)) => Some(now / 1000 + seconds)
    case Some(PX(millis)) => Some(now + millis)
    case _ => None
  }

  function SetOp(data: Data, key: Key, value: Bytes, expiry: Option<Expiry>, now: nat): (Data, Output) {
    (data[key := Item(Str(value), Deadline(expiry, now))], Reply(Okay))
  }

  function GetOp(data: Data, key: Key, now: nat): Output {
    if key !in data then Reply(Bulk(None))
    else
      match data[key].value
      case Str(text) =>
        var expired := data[key].expiresAt.Some? && now > data[key].expiresAt.value;
        Reply(Bulk(if expired then None else Some(text)))
      case Bits(bits) => Reply(Bulk(Some(bits)))
      case _ => Failure(WrongType)
  }

  function OrNew(data: Data, key: Key, value: Value): Item {
    if key in data then data[key] else Item(value, None)
  }

  function IncrOp(data: Data, key: Key): (Data, Output) {
    var item := OrNew(data, key, Str(Print(0)));
    match item.value
    case Str(text) =>
      (match ParseI64(text)
       case None => (data[key := item], Failure(NotAnInteger))
       case Some(i) =>
         if i < I64_MAX then (data[key := item.(value := Str(PrintInt(i + 1)))], Reply(Int(i + 1)))
         else (data[key := item], Failure(TooLarge)))
    case _ => (data[key := item], Failure(NotAnInteger))
  }

  // ----- Lists

  /** The items of a list, none for a missing key. */
  function ItemsOf(data: Data, key: Key): seq<Bytes> {
    if key in data && data[key].value.List? then data[key].value.items else []
  }

  function RpushOp(data: Data, key: Key, values: seq<Bytes>): (Data, Output) {
    var item := OrNew(data, key, List([]));
    match item.value
    case List(items) => (data[key := item.(value := List(items + values))], Reply(Int(|items + values|)))
    case _ => (data[key := item], Failure(WrongType))
  }

  /** Pushes one value after the other to the front. */
  function PushedFront(items: seq<Bytes>, values: seq<Bytes>): seq<Bytes> {
    if values == [] then items else [values[|values| - 1]] + PushedFront(items, values[..|values| - 1])
  }

  function LpushOp(data: Data, key: Key, values: seq<Bytes>): (Data, Output) {
    var item := OrNew(data, key, List([]));
    match item.value
    case List(items) =>
      var pushed := PushedFront(items, values);
      (data[key := item.(value := List(pushed))], Reply(Int(|pushed|)))
    case _ => (data[key := item], Failure(WrongType))
  }

  function LlenOp(data: Data, key: Key): Output {
    if key !in data then Reply(Int(0))
    else
      match data[key].value
      case List(items) => Reply(Int(|items|))
      case _ => Failure(WrongType)
  }

  function LpopOp(data: Data, key: Key, count: Option<nat>): (Data, Output) {
    if key !in data then (data, Reply(Bulk(None)))
    else
      match data[key].value
      case List(items) =>
        (match count
         case Some(n) =>
           var taken := Min(n, |items|);
           (data[key := data[key].(value := List(items[taken..]))],
            Reply(if taken == 0 then NullArray else Items(items[..taken])))
         case None =>
           if items == [] then (data, Reply(Bulk(None)))
           else (data[key := data[key].(value := List(items[1..]))], Reply(Bulk(Some(items[0])))))
      case _ => (data, Failure(WrongType))
  }

  // ----- Streams

  /** A refused id leaves the key behind, holding an empty stream if it was new. */
  function XaddOp(data: Data, key: Key, arg: IdArg, fields: seq<Bytes>, now: nat): (Data, Output) {
    var item := OrNew(data, key, Stream([]));
    match item.value
    case Stream(entries) =>
      (match NewId(Last(entries), arg, now)
       case None => (data[key := item], Failure(BadId))
       case Some(id) => (data[key := item.(value := Stream(WithEntry(entries, Entry(id, fields))))], Reply(NewIdReply(id))))
    case _ => (data[key := item], Failure(WrongType))
  }

  function EntriesOf(data: Data, key: Key): seq<Entry> {
    if key in data && data[key].value.Stream? then data[key].value.entries else []
  }

  /** `_is_stream_avail`. */
  predicate IsAvailable(data: Data, cursor: Cursor) {
    After(EntriesOf(data, cursor.key), cursor.id) != []
  }

  /** `_extract_stream_entries` for each stream in turn, those with nothing to read left out. */
  function ReadPages(data: Data, cursors: seq<Cursor>, count: Option<nat>): seq<(Key, seq<Entry>)> {
    if cursors == [] then []
    else
      var c := cursors[|cursors| - 1];
      var page := Take(After(EntriesOf(data, c.key), c.id), count);
      ReadPages(data, cursors[..|cursors| - 1], count) + (if page == [] then [] else [(c.key, page)])
  }

  // ----- Bitmaps

  /** SETBIT on a new key stores a zero bitmap even when the bit is refused. */
  function SetbitOp(data: Data, key: Key, offset: nat, bit: nat): (Data, Output) {
    var item := OrNew(data, key, Bits(Bitmaps.New(offset + 1)));
    match item.value
    case Bits(bits) =>
      (match Write(bits, offset, bit)
       case (Some(written), was) => (data[key := item.(value := Bits(written))], Reply(Int(if was then 1 else 0)))
       case (None, _) => (data[key := item], Failure(BadBit)))
    case _ => (data[key := item], Failure(WrongType))
  }

  /** The bytes BITCOUNT and BITOP work on: a bitmap's or a string's, none for a missing key. */
  function BytesOf(data: Data, key: Key): Option<Bytes> {
    if key !in data then Some([])
    else
      match data[key].value
      case Bits(bits) => Some(bits)
      case Str(text) => Some(text)
      case _ => None
  }

  function BitcountOp(data: Data, key: Key, range: Option<Range>): Output {
    match BytesOf(data, key)
    case Some(bytes) => Reply(Int(if key in data then BitCount(bytes, range) else 0))
    case None => Failure(WrongType)
  }

  function BitopOp(data: Data, and: bool, dest: Key, key1: Key, key2: Key): (Data, Output) {
    match (BytesOf(data, key1), BytesOf(data, key2))
    case (Some(x), Some(y)) =>
      var result := Combine(and, x, y);
      (if result == [] then data - {dest} else data[dest := Item(Bits(result), None)], Reply(Int(|result|)))
    case _ => (data, Failure(WrongType))
  }

  // ----- Sorted sets

  function ZaddOp(data: Data, key: Key, score: real, member: Name): (Data, Output) {
    var item := OrNew(data, key, Scores(ZSet(map[], [])));
    match item.value
    case Scores(z) =>
      (data[key := item.(value := Scores(Added(z, score, member)))], Reply(Int(if member in z.members then 0 else 1)))
    case _ => (data[key := item], Failure(WrongType))
  }

  function ZremOp(data: Data, key: Key, member: Name): (Data, Output) {
    if key !in data then (data, Reply(Int(0)))
    else
      match data[key].value
      case Scores(z) =>
        (data[key := data[key].(value := Scores(SortedSets.Removed(z, member)))], Reply(Int(if member in z.members then 1 else 0)))
      case _ => (data, Failure(WrongType))
  }

  /** The commands that touch only the key space. */
  predicate IsDataCmd(cmd: Cmd) {
    || cmd.Ping? || cmd.Set? || cmd.Get? || cmd.Rpush? || cmd.Lpush? || cmd.Llen? || cmd.Lpop? || cmd.Xadd? || cmd.Incr?
    || cmd.Setbit? || cmd.Bitcount? || cmd.Bitop? || cmd.Zadd? || cmd.Zrem?
  }

  function DataOp(data: Data, cmd: Cmd, now: nat): (Data, Output)
    requires IsDataCmd(cmd)
  {
    match cmd
    case Ping => (data, Reply(Pong))
    case Set(key, value, expiry) => SetOp(data, key, value, expiry, now)
    case Get(key) => (data, GetOp(data, key, now))
    case Rpush(key, values) => RpushOp(data, key, values)
    case Lpush(key, values) => LpushOp(data, key, values)
    case Llen(key) => (data, LlenOp(data, key))
    case Lpop(key, count) => LpopOp(data, key, count)
    case Xadd(key, id, fields) => XaddOp(data, key, id, fields, now)
    case Incr(key) => IncrOp(data, key)
    case Setbit(key, offset, bit) => SetbitOp(data, key, offset, bit)
    case Bitcount(key, range) => (data, BitcountOp(data, key, range))
    case Bitop(and, dest, key1, key2) => BitopOp(data, and, dest, key1, key2)
    case Zadd(key, score, member) => ZaddOp(data, key, score, member)
    case Zrem(key, member) => ZremOp(data, key, member)
  }

  /** A data command changes no key but the one `set_dirty` marks; only sorted-set commands change an unmarked one. */
  lemma DataOpChangesDirtyKey(data: Data, cmd: Cmd, now: nat, key: Key)
    requires IsDataCmd(cmd) && !cmd.Zadd? && !cmd.Zrem? && DirtyKey(cmd) != Some(key)
    ensures var data' := DataOp(data, cmd, now).0;
            (key in data' <==> key in data) && (key in data ==> data'[key] == data[key])
  {
  }
}
