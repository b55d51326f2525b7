/** ZADD and ZREM write without a dirty mark and without a log entry: when they change anything, exactly. */
module SilentWrites {
  import opened Base
  import opened Streams
  import opened Commands
  import opened Store

  function Lookup(data: Data, key: Key): Option<Item> {
    if key in data then Some(data[key]) else None
  }

  /** The key a sorted-set command changes, read off before it is executed; no other command is silent. */
  function SilentKey(data: Data, cmd: Cmd): Option<Key> {
    match cmd
    case Zadd(key, score, member) =>
      if key !in data then Some(key)
      else
        (match data[key].value
         case Scores(z) => if member in z.members && z.members[member] == score then None else Some(key)
         case _ => None)
    case Zrem(key, member) =>
      if key in data && data[key].value.Scores? && member in data[key].value.zset.members then Some(key) else None
    case _ => None
  }

  // ----- What every key space keeps

  /** Each sorted set has every member's current pair in its index. */
  ghost predicate AllCovered(data: Data) {
    forall key :: key in data ==> Covered(data[key].value)
  }

  ghost predicate Covered(value: Value) {
    value.Scores? ==> SortedSets.Covers(value.zset)
  }

  lemma DataOpCovered(data: Data, cmd: Cmd, now: nat)
    requires IsDataCmd(cmd) && AllCovered(data)
    ensures AllCovered(DataOp(data, cmd, now).0)
  {
    hide AllCovered, SetOp, RpushOp, LpushOp, LpopOp, XaddOp, IncrOp, SetbitOp, BitopOp, ZaddOp, ZremOp, GetOp, LlenOp, BitcountOp;
    match cmd
    case Zadd(key, score, member) => ZaddCovered(data, key, score, member);
    case Zrem(key, member) => ZremCovered(data, key, member);
    case _ => OthersCovered(data, cmd, now);
  }

  lemma ZaddCovered(data: Data, key: Key, score: real, member: SortedSets.Name)
    requires AllCovered(data)
    ensures AllCovered(ZaddOp(data, key, score, member).0)
  {
    EmptyCovered();
    hide SortedSets.Added, SortedSets.Covers;
    var item := OrNew(data, key, Scores(SortedSets.ZSet(map[], [])));
    if item.value.Scores? {
      SortedSets.AddCovers(item.value.zset, score, member);
    }
  }

  lemma ZremCovered(data: Data, key: Key, member: SortedSets.Name)
    requires AllCovered(data)
    ensures AllCovered(ZremOp(data, key, member).0)
  {
    hide SortedSets.Removed, SortedSets.Covers;
    if key in data && data[key].value.Scores? {
      SortedSets.RemoveCovers(data[key].value.zset, member);
    }
  }

  lemma OthersCovered(data: Data, cmd: Cmd, now: nat)
    requires IsDataCmd(cmd) && !cmd.Zadd? && !cmd.Zrem? && AllCovered(data)
    ensures AllCovered(DataOp(data, cmd, now).0)
  {
    hide NewId, WithEntry, Bitmaps.Write, Bitmaps.New, Bitmaps.Combine, Decimal.Print, Decimal.ParseI64, Decimal.PrintInt;
    hide PushedFront, SortedSets.Covers, Bitmaps.BitCount;
  }

  lemma EmptyCovered()
    ensures SortedSets.Covers(SortedSets.ZSet(map[], []))
  {
  }

  // ----- The exact condition

  /** A sorted-set command leaves a key as it was exactly when that is not its silent key. */
  lemma SilentKeyIsChanged(data: Data, cmd: Cmd, now: nat, key: Key)
    requires (cmd.Zadd? || cmd.Zrem?) && AllCovered(data)
    ensures Lookup(DataOp(data, cmd, now).0, key) == Lookup(data, key) <==> SilentKey(data, cmd) != Some(key)
  {
    hide SortedSets.Added, SortedSets.Removed, SortedSets.Covers;
    if cmd.key in data && data[cmd.key].value.Scores? {
      assert Covered(data[cmd.key].value);
      var z := data[cmd.key].value.zset;
      match cmd
      case Zadd(_, score, member) => SortedSets.AddLeaves(z, score, member);
      case Zrem(_, member) => SortedSets.RemoveLeaves(z, member);
    }
  }

  /** Any other data command changes no key but the one that is marked. */
  lemma UnmarkedIsSilent(data: Data, cmd: Cmd, now: nat, key: Key)
    requires IsDataCmd(cmd) && AllCovered(data) && DirtyKey(cmd) != Some(key) && SilentKey(data, cmd) != Some(key)
    ensures Lookup(DataOp(data, cmd, now).0, key) == Lookup(data, key)
  {
    if cmd.Zadd? || cmd.Zrem? {
      SilentKeyIsChanged(data, cmd, now, key);
    } else {
      DataOpChangesDirtyKey(data, cmd, now, key);
    }
  }
}
