/** Runs in which EXEC aborts and does not, and a run whose log loses its last command: the theorems speak of something. */
module Examples {
  import opened Base
  import opened Commands
  import opened Registry
  import opened Store
  import opened Handler
  import opened Runs
  import opened Resp
  import opened RespChunks
  import opened RespLateness
  import opened RespRoundTrip
  import opened Replay

  // ----- EXEC

  const QUIET: Env := Env(0, 0, [])

  function Ask(client: Client, cmd: Cmd): Event {
    Request(client, Some(cmd), [], [QUIET])
  }

  lemma OneMoreEvent(events: seq<Event>, e: Event)
    requires Possible(events) && Enabled(Runs.After(events), e)
    ensures Possible(events + [e]) && Runs.After(events + [e]) == Apply(Runs.After(events), e)
  {
    assert (events + [e])[..|events|] == events;
    hide Enabled, Blocking.Valid, Applied;
  }

  /** A command outside MULTI that neither parks nor acknowledges can always be asked for. */
  lemma OneMoreCommand(events: seq<Event>, client: Client, cmd: Cmd)
    requires Possible(events) && client !in Runs.After(events).reg.txns
    requires !cmd.Blpop? && !cmd.Xread? && !cmd.Wait?
    ensures Possible(events + [Ask(client, cmd)])
    ensures Runs.After(events + [Ask(client, cmd)]) == Execute(Runs.After(events), cmd, [], client, QUIET).0
  {
    hide Blocking.Valid, Execute, Runs.After, Possible;
    OneMoreEvent(events, Ask(client, cmd));
  }

  function Watching(key: Key, marked: bool): Handler {
    START.(reg := EMPTY.(watches := map[key := map[1 := marked]]))
  }

  lemma WatchStep(key: Key)
    ensures Execute(START, Watch([key]), [], 1, QUIET).0 == Watching(key, false)
  {
    assert [key][..0] == [];
    assert Watched(map[], [], 1) == map[];
    assert Watched(map[], [key], 1) == WatchedOne(map[], key, 1);
  }

  lemma SetStep(key: Key, value: Bytes)
    ensures Execute(Watching(key, false), Set(key, value, None), [], 2, QUIET).0
         == Watching(key, true).(data := map[key := Item(Str(value), None)])
  {
    assert AllDirty(map[1 := false]) == map[1 := true];
    assert ToAll([], Raw([])) == [];
  }

  lemma MultiStep(h: Handler)
    requires 1 !in h.reg.txns && !h.flagList && !h.flagStream
    ensures Execute(h, Multi, [], 1, QUIET).0 == h.(reg := h.reg.(txns := h.reg.txns[1 := []]))
  {
  }

  /** WATCH by client 1, then maybe SET by client 2, then MULTI by client 1. */
  function Story(key: Key, value: Bytes, disturbed: bool): seq<Event> {
    [] + [Ask(1, Watch([key]))] + (if disturbed then [Ask(2, Set(key, value, None))] else []) + [Ask(1, Multi)]
  }

  /** EXEC aborts after the disturbed story and goes ahead after the other. */
  lemma BothHappen(key: Key, value: Bytes, disturbed: bool)
    ensures Possible(Story(key, value, disturbed))
    ensures var h := Runs.After(Story(key, value, disturbed));
            1 in h.reg.txns && h.reg.txns[1] == [] && ExecOp(h, 1, []).1 == Reply(if disturbed then NullArray else EmptyArray)
  {
    hide Execute, Possible, Runs.After;
    var watched := [] + [Ask(1, Watch([key]))];
    assert Possible([]) && Runs.After([]) == START by { NoEvents(); }
    OneMoreCommand([], 1, Watch([key]));
    WatchStep(key);
    var last := Watching(key, false);
    var story := watched;
    if disturbed {
      OneMoreCommand(watched, 2, Set(key, value, None));
      SetStep(key, value);
      last := Watching(key, true).(data := map[key := Item(Str(value), None)]);
      story := watched + [Ask(2, Set(key, value, None))];
    } else {
      assert watched + [] == watched;
    }
    OneMoreCommand(story, 1, Multi);
    MultiStep(last);
    ExecEnds(last.(reg := last.reg.(txns := map[1 := []])), key, disturbed);
  }

  lemma NoEvents()
    ensures Possible([]) && Runs.After([]) == START
  {
  }

  lemma ExecEnds(h: Handler, key: Key, marked: bool)
    requires h.reg.txns == map[1 := []] && h.reg.watches == map[key := map[1 := marked]]
    ensures ExecOp(h, 1, []).1 == Reply(if marked then NullArray else EmptyArray)
  {
    assert IsAnyDirty(h.reg.watches, 1) <==> marked by {
      assert key in h.reg.watches && 1 in h.reg.watches[key];
    }
  }

  // ----- A log that loses its last command

  function BulkOf(s: Bytes): RespType {
    BulkStr(|s|, Some(s))
  }

  /** `SET key value` as a client prints it. */
  function SetFrame(word: Bytes, key: Key, value: Bytes): RespType {
    Array(3, [BulkOf(word), BulkOf(key), BulkOf(value)])
  }

  /** The frame up to where the value begins. */
  function UpToValue(word: Bytes, key: Key, size: nat): Bytes {
    [STAR] + (Decimal.Print(3) + DELIMITER
      + (SerializeAll([BulkOf(word), BulkOf(key)]) + ([DOLLAR] + (Decimal.Print(size) + DELIMITER))))
  }

  lemma FrameParts(word: Bytes, key: Key, value: Bytes)
    ensures Printable(SetFrame(word, key, value))
    ensures Serialize(SetFrame(word, key, value)) == UpToValue(word, key, |value|) + (value + DELIMITER)
  {
    var x, y, z := BulkOf(word), BulkOf(key), BulkOf(value);
    hide Decimal.Print;
    assert Serialize(z) == [DOLLAR] + Decimal.Print(|value|) + DELIMITER + value + DELIMITER;
    assert Serialize(SetFrame(word, key, value)) == [STAR] + Decimal.Print(3) + DELIMITER + SerializeAll([x, y, z]);
    PrintedThree(x, y, z);
    hide Serialize, SerializeAll;
    var tail := [DOLLAR] + (Decimal.Print(|value|) + DELIMITER);
    Grouped(Serialize(x), Serialize(y), [DOLLAR], Decimal.Print(|value|), value);
    Outer(Decimal.Print(3), SerializeAll([x, y]), tail, value + DELIMITER);
  }

  lemma PrintedFirst(x: RespType, rest: seq<RespType>)
    requires Printable(x) && forall i :: 0 <= i < |rest| ==> Printable(rest[i])
    ensures forall i :: 0 <= i < |[x] + rest| ==> Printable(([x] + rest)[i])
    ensures SerializeAll([x] + rest) == Serialize(x) + SerializeAll(rest)
  {
    assert ([x] + rest)[1..] == rest;
    hide Serialize, Printable;
  }

  lemma PrintedThree(x: RespType, y: RespType, z: RespType)
    requires Printable(x) && Printable(y) && Printable(z)
    ensures SerializeAll([x, y, z]) == Serialize(x) + (Serialize(y) + (Serialize(z) + []))
    ensures SerializeAll([x, y]) == Serialize(x) + (Serialize(y) + [])
  {
    assert [x, y, z] == [x] + [y, z] && [y, z] == [y] + [z] && [x, y] == [x] + [y];
    assert [y] == [y] + [] && [z] == [z] + [] && SerializeAll([]) == [];
    hide Serialize, SerializeAll, Printable;
    PrintedFirst(x, [y, z]);
    PrintedFirst(y, [z]);
    PrintedFirst(z, []);
    PrintedFirst(x, [y]);
    PrintedFirst(y, []);
  }

  lemma Grouped(x: Bytes, y: Bytes, d: Bytes, n: Bytes, value: Bytes)
    ensures x + (y + ((d + n + DELIMITER + value + DELIMITER) + [])) == (x + (y + [])) + (d + (n + DELIMITER)) + (value + DELIMITER)
  {
  }

  lemma Outer(n: Bytes, two: Bytes, tail: Bytes, body: Bytes)
    ensures [STAR] + n + DELIMITER + (two + tail + body) == [STAR] + (n + DELIMITER + (two + tail)) + body
  {
  }

  function Setting(word: Bytes, key: Key, value: Bytes): seq<Event> {
    [Request(1, Some(Set(key, value, None)), PrintedForm(SetFrame(word, key, value)), [QUIET])]
  }

  lemma SettingRuns(word: Bytes, key: Key, value: Bytes)
    ensures Possible(Setting(word, key, value))
    ensures var h := Runs.After(Setting(word, key, value));
            h.data == map[key := Item(Str(value), None)] && h.log == PrintedForm(SetFrame(word, key, value))
  {
    var e := Setting(word, key, value)[0];
    NoEvents();
    assert [] + [e] == [e];
    SetEnabled(word, key, value);
    OneMoreEvent([], e);
    hide Possible, Runs.After, Enabled, PrintedForm;
    assert Setting(word, key, value) == [e];
  }

  lemma SetEnabled(word: Bytes, key: Key, value: Bytes)
    ensures var e := Setting(word, key, value)[0];
            && Enabled(START, e)
            && Apply(START, e).data == map[key := Item(Str(value), None)]
            && Apply(START, e).log == PrintedForm(SetFrame(word, key, value))
  {
    var buf := PrintedForm(SetFrame(word, key, value));
    hide PrintedForm;
    assert [] + buf == buf;
  }

  /**
   * A run of one SET, whose log comes back in three pieces of the value: the key is lost exactly when the second piece
   * takes the cursor to the end of the value.
   */
  lemma LastSetLost(decode: Decoder, word: Bytes, key: Key, value: Bytes, a: Bytes, b: Bytes, c: Bytes, envs: Surroundings)
    requires decode(SetFrame(word, key, value)) == Some(Set(key, value, None))
    requires |word| < TWO_64 && |key| < TWO_64 && |value| < TWO_64
    requires value + DELIMITER == a + b + c && a != [] && b != [] && c != []
    ensures Possible(Setting(word, key, value))
    ensures var h, chunks := Runs.After(Setting(word, key, value)), [UpToValue(word, key, |value|) + a, b, c];
            && Concat(chunks) == h.log
            && h.data == map[key := Item(Str(value), None)]
            && ReplayedFile(chunks, decode, envs).data == if 2 * |a| + |b| >= |value| + 2 then map[] else h.data
  {
    SettingRuns(word, key, value);
    FrameInThree(word, key, value, a, b, c);
    OneSetReplayed(decode, SetFrame(word, key, value), key, value, envs);
    FileIs([UpToValue(word, key, |value|) + a, b, c], decode, envs);
    hide *;
  }

  lemma FileIs(chunks: seq<Bytes>, decode: Decoder, envs: Surroundings)
    ensures Ready(START) && ReplayedFile(chunks, decode, envs) == ReplayedAll(START, Reread(chunks).1, decode, envs)
  {
  }

  /** The pieces hold the frame, and the file yields it or nothing. */
  lemma FrameInThree(word: Bytes, key: Key, value: Bytes, a: Bytes, b: Bytes, c: Bytes)
    requires |word| < TWO_64 && |key| < TWO_64 && |value| < TWO_64
    requires value + DELIMITER == a + b + c && a != [] && b != [] && c != []
    ensures var chunks := [UpToValue(word, key, |value|) + a, b, c];
            && Concat(chunks) == PrintedForm(SetFrame(word, key, value))
            && Reread(chunks).1 == if 2 * |a| + |b| >= |value| + 2 then [] else [SetFrame(word, key, value)]
  {
    var v, prefix := SetFrame(word, key, value), UpToValue(word, key, |value|);
    var chunks := [prefix + a, b, c];
    var items := [BulkOf(word), BulkOf(key)];
    ItemBegins(3, items, |value|);
    FrameParts(word, key, value);
    PrintOne(v);
    assert |a| + |b| + |c| == |value| + 2 by { assert |value + DELIMITER| == |a + b + c|; }
    InThree(prefix + a, b, c);
    Regrouped(prefix, a, b, c);
    ThreePieces(prefix, |value|, a, b, c);
    hide LateCut, Reread, Serialize, PrintAll, UpToValue, BodyBegins, Concat;
    AllFrames([v], chunks);
  }

  lemma OneSetReplayed(decode: Decoder, v: RespType, key: Key, value: Bytes, envs: Surroundings)
    requires decode(v) == Some(Set(key, value, None))
    ensures Ready(START) && ReplayedAll(START, [], decode, envs).data == map[]
    ensures ReplayedAll(START, [v], decode, envs).data == map[key := Item(Str(value), None)]
  {
    assert [v][..0] == [];
    hide PrintedForm;
  }
}
