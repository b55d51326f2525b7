/** src/commands/cmd_handler.rs, `RequestRegistry`: parked requests, their secondary indexes, and WATCH/MULTI state. */
module Registry {
  import opened Base
  import opened Commands

  /** Millisecond clock readings identify requests. */
  type Ts = nat

  /** A parked request; the tasks the source stores as closures are read off these fields. A deadline of 0 is none. */
  datatype RequestEntry =
    | ListReq(client: Client, key: Key, deadline: nat)
    | StreamReq(client: Client, count: Option<nat>, cursors: seq<Cursor>, deadline: nat)
    | WaitReq(client: Client, required: nat, actual: nat, deadline: nat, offset: int, slaves: seq<Client>)

  /** A command queued by MULTI with the bytes it was parsed from. */
  datatype Queued = Queued(cmd: Cmd, buf: Bytes)

  /** The fields of the registry. */
  datatype Reg = Reg(
    store: map<Ts, RequestEntry>,
    lists: map<Key, seq<Ts>>,
    streams: set<Ts>,
    txns: map<Client, seq<Queued>>,
    watches: map<Key, map<Client, bool>>,
    waits: map<Client, Ts>,
    acks: map<Client, seq<Client>>,
    deadlines: map<nat, Ts>)

  const EMPTY: Reg := Reg(map[], map[], {}, map[], map[], map[], map[], map[])

  // ----- Parking

  /** The first free deadline at or after `d`. */
  function FreeSlot(deadlines: map<nat, Ts>, d: nat): nat
    decreases Later(deadlines.Keys, d)
  {
    if d in deadlines then
      assert d in Later(deadlines.Keys, d) && d !in Later(deadlines.Keys, d + 1);
      FreeSlot(deadlines, d + 1)
    else d
  }

  function Later(deadlines: set<nat>, d: nat): set<nat> {
    set x | x in deadlines && x >= d
  }

  function AcksWith(acks: map<Client, seq<Client>>, slaves: seq<Client>, client: Client): map<Client, seq<Client>> {
    map s | s in acks.Keys + (set x | x in slaves) ::
      if s in slaves then (if s in acks then acks[s] else []) + [client] else acks[s]
  }

  /** `insert`: the slaves of a WAIT are distinct, coming from a set. */
  function Inserted(r: Reg, t: Ts, deadline: nat, entry: RequestEntry): Reg {
    var d := if deadline > 0 then FreeSlot(r.deadlines, deadline) else entry.deadline;
    Reg(r.store[t := entry.(deadline := d)],
        if entry.ListReq? then ListsWith(r.lists, entry.key, t) else r.lists,
        if entry.StreamReq? then r.streams + {t} else r.streams,
        r.txns,
        r.watches,
        if entry.WaitReq? then r.waits[entry.client := t] else r.waits,
        if entry.WaitReq? then AcksWith(r.acks, entry.slaves, entry.client) else r.acks,
        if deadline > 0 then r.deadlines[d := t] else r.deadlines)
  }

  function ListsWith(lists: map<Key, seq<Ts>>, key: Key, t: Ts): map<Key, seq<Ts>> {
    lists[key := (if key in lists then lists[key] else []) + [t]]
  }

  // ----- Removing

  function ListsWithout(lists: map<Key, seq<Ts>>, key: Key, t: Ts): map<Key, seq<Ts>> {
    if key !in lists then lists
    else if Without(lists[key], t) == [] then lists - {key}
    else lists[key := Without(lists[key], t)]
  }

  /** One replica less for the client; no empty list is kept. */
  function WithoutOne(acks: map<Client, seq<Client>>, s: Client, client: Client): map<Client, seq<Client>> {
    if s !in acks then acks
    else if Without(acks[s], client) == [] then acks - {s}
    else acks[s := Without(acks[s], client)]
  }

  function AcksWithout(acks: map<Client, seq<Client>>, slaves: seq<Client>, client: Client): map<Client, seq<Client>> {
    map s | s in acks && (s in slaves ==> Without(acks[s], client) != []) ::
      if s in slaves then Without(acks[s], client) else acks[s]
  }

  /** `remove`: nothing happens for a timestamp that is not parked. */
  function Removed(r: Reg, t: Ts): Reg {
    if t !in r.store then r
    else
      var entry := r.store[t];
      Reg(r.store - {t},
          if entry.ListReq? then ListsWithout(r.lists, entry.key, t) else r.lists,
          if entry.StreamReq? then r.streams - {t} else r.streams,
          r.txns,
          r.watches,
          if entry.WaitReq? then r.waits - {entry.client} else r.waits,
          if entry.WaitReq? then AcksWithout(r.acks, entry.slaves, entry.client) else r.acks,
          r.deadlines - {entry.deadline})
  }

  function RemovedAll(r: Reg, ts: seq<Ts>): Reg {
    if ts == [] then r else Removed(RemovedAll(r, ts[..|ts| - 1]), ts[|ts| - 1])
  }

  // ----- WATCH and MULTI

  function WatchedOne(watches: map<Key, map<Client, bool>>, key: Key, client: Client): map<Key, map<Client, bool>> {
    var clients := if key in watches then watches[key] else map[];
    watches[key := if client in clients then clients else clients[client := false]]
  }

  function Watched(watches: map<Key, map<Client, bool>>, keys: seq<Key>, client: Client): map<Key, map<Client, bool>> {
    if keys == [] then watches
    else WatchedOne(Watched(watches, keys[..|keys| - 1], client), keys[|keys| - 1], client)
  }

  function Unwatched(watches: map<Key, map<Client, bool>>, client: Client): map<Key, map<Client, bool>> {
    map k | k in watches :: watches[k] - {client}
  }

  /** `set_dirty`: every client watching the written key. */
  function Dirtied(watches: map<Key, map<Client, bool>>, cmd: Cmd): map<Key, map<Client, bool>> {
    match DirtyKey(cmd)
    case None => watches
    case Some(key) =>
      if key in watches then watches[key := AllDirty(watches[key])] else watches
  }

  function AllDirty(clients: map<Client, bool>): map<Client, bool> {
    map c | c in clients :: true
  }

  predicate IsAnyDirty(watches: map<Key, map<Client, bool>>, client: Client) {
    exists k :: k in watches && client in watches[k] && watches[k][client]
  }

  // ----- The registry that is updated in place

  class RequestRegistry {
    var store: map<Ts, RequestEntry>
    var backlogList: map<Key, seq<Ts>>
    var backlogStream: set<Ts>
    var backlogTxn: map<Client, seq<Queued>>
    var watchlist: map<Key, map<Client, bool>>
    var backlogWait: map<Client, Ts>
    var backlogAck: map<Client, seq<Client>>
    var deadline: map<nat, Ts>

    function View(): Reg
      reads this
    {
      Reg(store, backlogList, backlogStream, backlogTxn, watchlist, backlogWait, backlogAck, deadline)
    }

    constructor ()
      ensures View() == EMPTY
    {
      store, backlogList, backlogStream, backlogTxn := map[], map[], {}, map[];
      watchlist, backlogWait, backlogAck, deadline := map[], map[], map[], map[];
    }

    method Insert(timestamp: Ts, requested: nat, requestEntry: RequestEntry)
      requires requestEntry.WaitReq? ==> NoDup(requestEntry.slaves)
      modifies this
      ensures View() == Inserted(old(View()), timestamp, requested, requestEntry)
    {
      var entry := requestEntry;
      if requested > 0 {
        var d := requested;
        while d in deadline
          invariant FreeSlot(deadline, d) == FreeSlot(deadline, requested)
          decreases Later(deadline.Keys, d)
        {
          assert d in Later(deadline.Keys, d) && d !in Later(deadline.Keys, d + 1);
          d := d + 1;
        }
        deadline := deadline[d := timestamp];
        entry := entry.(deadline := d);
      }
      match entry {
        case ListReq(_, key, _) =>
          var queue := if key in backlogList then backlogList[key] else [];
          backlogList := backlogList[key := queue + [timestamp]];
        case StreamReq(_, _, _, _) =>
          backlogStream := backlogStream + {timestamp};
        case WaitReq(client, _, _, _, _, slaves) =>
          backlogWait := backlogWait[client := timestamp];
          AddToAcks(slaves, client);
      }
      store := store[timestamp := entry];
    }

    method AddToAcks(slaves: seq<Client>, client: Client)
      requires NoDup(slaves)
      modifies this`backlogAck
      ensures backlogAck == AcksWith(old(backlogAck), slaves, client)
    {
      for i := 0 to |slaves|
        invariant backlogAck == AcksWith(old(backlogAck), slaves[..i], client)
      {
        assert slaves[..i + 1] == slaves[..i] + [slaves[i]];
        assert slaves[i] !in slaves[..i];
        var clients := if slaves[i] in backlogAck then backlogAck[slaves[i]] else [];
        backlogAck := backlogAck[slaves[i] := clients + [client]];
      }
      assert slaves[..|slaves|] == slaves;
    }

    method Remove(timestamp: Ts) returns (removed: Option<RequestEntry>)
      modifies this
      ensures View() == Removed(old(View()), timestamp)
      ensures removed == if timestamp in old(store) then Some(old(store)[timestamp]) else None
    {
      if timestamp !in store {
        return None;
      }
      var entry := store[timestamp];
      store := store - {timestamp};
      match entry {
        case ListReq(_, key, _) =>
          if key in backlogList {
            var queue := Without(backlogList[key], timestamp);
            backlogList := if queue == [] then backlogList - {key} else backlogList[key := queue];
          }
        case StreamReq(_, _, _, _) =>
          backlogStream := backlogStream - {timestamp};
        case WaitReq(client, _, _, _, _, slaves) =>
          backlogWait := backlogWait - {client};
          RemoveFromAcks(slaves, client);
      }
      deadline := deadline - {entry.deadline};
      removed := Some(entry);
    }

    method RemoveFromAcks(slaves: seq<Client>, client: Client)
      modifies this`backlogAck
      ensures backlogAck == AcksWithout(old(backlogAck), slaves, client)
    {
      for i := 0 to |slaves|
        invariant backlogAck == AcksWithout(old(backlogAck), slaves[..i], client)
      {
        WithoutOneMore(old(backlogAck), slaves, i, client);
        if slaves[i] in backlogAck {
          var clients := Without(backlogAck[slaves[i]], client);
          backlogAck := if clients == [] then backlogAck - {slaves[i]} else backlogAck[slaves[i] := clients];
        }
      }
      assert slaves[..|slaves|] == slaves;
    }

    method Watch(keys: seq<Key>, client: Client)
      modifies this`watchlist
      ensures watchlist == Watched(old(watchlist), keys, client)
    {
      for i := 0 to |keys|
        invariant watchlist == Watched(old(watchlist), keys[..i], client)
      {
        assert keys[..i + 1][..i] == keys[..i];
        var clients := if keys[i] in watchlist then watchlist[keys[i]] else map[];
        if client !in clients {
          clients := clients[client := false];
        }
        watchlist := watchlist[keys[i] := clients];
      }
      assert keys[..|keys|] == keys;
    }

    method UnwatchAll(client: Client)
      modifies this`watchlist
      ensures watchlist == Unwatched(old(watchlist), client)
    {
      var rest := watchlist.Keys;
      while rest != {}
        invariant rest <= watchlist.Keys == old(watchlist).Keys
        invariant forall k :: k in watchlist ==> watchlist[k] == if k in rest then old(watchlist)[k] else old(watchlist)[k] - {client}
        decreases rest
      {
        var k :| k in rest;
        watchlist := watchlist[k := watchlist[k] - {client}];
        rest := rest - {k};
      }
    }

    method SetDirty(cmd: Cmd)
      modifies this`watchlist
      ensures watchlist == Dirtied(old(watchlist), cmd)
    {
      match DirtyKey(cmd) {
        case None =>
        case Some(key) =>
          if key in watchlist {
            var clients := watchlist[key];
            var rest := clients.Keys;
            while rest != {}
              invariant rest <= clients.Keys == watchlist[key].Keys
              invariant forall c :: c in clients ==> clients[c] == (c in rest ==> watchlist[key][c])
              decreases rest
            {
              var c :| c in rest;
              clients := clients[c := true];
              rest := rest - {c};
            }
            assert clients == AllDirty(watchlist[key]);
            watchlist := watchlist[key := clients];
          }
      }
    }
  }

  /** Taking the client off one more replica's list. */
  lemma WithoutOneMore(acks: map<Client, seq<Client>>, slaves: seq<Client>, i: nat, client: Client)
    requires i < |slaves|
    ensures AcksWithout(acks, slaves[..i + 1], client) == WithoutOne(AcksWithout(acks, slaves[..i], client), slaves[i], client)
  {
    var s := slaves[i];
    assert slaves[..i + 1] == slaves[..i] + [s];
    assert forall x :: x in slaves[..i + 1] <==> x in slaves[..i] || x == s;
    if s in acks {
      WithoutAbsent(Without(acks[s], client), client);
    }
    hide Without;
  }
}
