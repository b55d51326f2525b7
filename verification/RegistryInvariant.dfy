/** What keeps the indexes of the registry in agreement with its store. */
module RegistryInvariant {
  import opened Base
  import opened Commands
  import opened Registry

  type Requests = map<Ts, RequestEntry>

  type Debts = map<Client, seq<Client>>

  /** `parked` lists every timestamp ever parked, in order of arrival. */
  ghost predicate Consistent(r: Reg, parked: seq<Ts>) {
    && NoDup(parked)
    && (forall t :: t in r.store ==> t in parked)
    && ListsAgree(r.store, r.lists, parked)
    && StreamsAgree(r.store, r.streams)
    && WaitsAgree(r.store, r.waits)
    && AcksAgree(r.store, r.waits, r.acks)
    && DeadlinesAgree(r.store, r.deadlines)
    && Accounted(r.store, r.acks)
  }

  predicate WaitsOn(store: Requests, t: Ts, key: Key) {
    t in store && store[t].ListReq? && store[t].key == key
  }

  /** The requests waiting on a list key, in order of arrival. */
  function QueueOf(store: Requests, parked: seq<Ts>, key: Key): seq<Ts> {
    if parked == [] then []
    else
      var t := parked[|parked| - 1];
      QueueOf(store, parked[..|parked| - 1], key) + (if WaitsOn(store, t, key) then [t] else [])
  }

  function Waiting(lists: map<Key, seq<Ts>>, key: Key): seq<Ts> {
    if key in lists then lists[key] else []
  }

  /** Each list queue is exactly the waiting timestamps of its key in order of arrival, and none is empty. */
  ghost predicate ListsAgree(store: Requests, lists: map<Key, seq<Ts>>, parked: seq<Ts>) {
    && (forall key :: QueueOf(store, parked, key) == Waiting(lists, key))
    && (forall key :: key in lists ==> lists[key] != [])
  }

  ghost predicate StreamsAgree(store: Requests, streams: set<Ts>) {
    forall t :: t in streams <==> t in store && store[t].StreamReq?
  }

  predicate IsWait(store: Requests, t: Ts) {
    t in store && store[t].WaitReq?
  }

  /** The wait map names the one WAIT of each client. */
  ghost predicate WaitsAgree(store: Requests, waits: map<Client, Ts>) {
    && (forall t :: IsWait(store, t) ==> store[t].client in waits && waits[store[t].client] == t)
    && (forall c :: c in waits ==> IsWait(store, waits[c]) && store[waits[c]].client == c)
  }

  predicate Owes(acks: Debts, s: Client, c: Client) {
    s in acks && c in acks[s]
  }

  /** No list of debts is empty or names a client twice. */
  ghost predicate DebtsTidy(acks: Debts) {
    forall s :: s in acks ==> acks[s] != [] && NoDup(acks[s])
  }

  /** A replica owes an ACK only to waiting clients that asked it. */
  ghost predicate AcksAgree(store: Requests, waits: map<Client, Ts>, acks: Debts) {
    && DebtsTidy(acks)
    && forall s, c :: Owes(acks, s, c) ==> c in waits && IsWait(store, waits[c]) && s in store[waits[c]].slaves
  }

  /** The deadline tree is a bijection with the timed entries. */
  ghost predicate DeadlinesAgree(store: Requests, deadlines: map<nat, Ts>) {
    && (forall d :: d in deadlines ==> d > 0 && deadlines[d] in store && store[deadlines[d]].deadline == d)
    && (forall t :: t in store && store[t].deadline > 0 ==>
          store[t].deadline in deadlines && deadlines[store[t].deadline] == t)
  }

  /** How many of `slaves` still owe `client` an ACK. */
  function Owing(acks: Debts, client: Client, slaves: seq<Client>): nat {
    if slaves == [] then 0
    else Owing(acks, client, slaves[..|slaves| - 1]) + (if Owes(acks, slaves[|slaves| - 1], client) then 1 else 0)
  }

  /** Acknowledged and still owing make up the replicas asked. */
  ghost predicate Balanced(e: RequestEntry, acks: Debts)
    requires e.WaitReq?
  {
    NoDup(e.slaves) && e.actual + Owing(acks, e.client, e.slaves) == |e.slaves|
  }

  /** WAIT accounting. */
  ghost predicate Accounted(store: Requests, acks: Debts) {
    forall t :: IsWait(store, t) ==> Balanced(store[t], acks)
  }

  /** No parked WAIT has its count. */
  ghost predicate Unmet(store: Requests) {
    forall t :: IsWait(store, t) ==> store[t].actual < store[t].required
  }

  // ----- Queues

  lemma {:induction false} QueueSame(store: Requests, store': Requests, parked: seq<Ts>, key: Key)
    requires forall t :: t in parked ==> (WaitsOn(store, t, key) <==> WaitsOn(store', t, key))
    ensures QueueOf(store, parked, key) == QueueOf(store', parked, key)
  {
    if parked != [] {
      QueueSame(store, store', parked[..|parked| - 1], key);
    }
  }

  lemma {:induction false} QueueMembers(store: Requests, parked: seq<Ts>, key: Key)
    requires NoDup(parked)
    ensures NoDup(QueueOf(store, parked, key))
    ensures forall t :: t in QueueOf(store, parked, key) <==> t in parked && WaitsOn(store, t, key)
  {
    if parked != [] {
      QueueMembers(store, parked[..|parked| - 1], key);
    }
  }

  lemma {:induction false} QueueRemoved(store: Requests, parked: seq<Ts>, key: Key, t: Ts)
    requires NoDup(parked)
    ensures QueueOf(store - {t}, parked, key) == Without(QueueOf(store, parked, key), t)
  {
    if parked != [] {
      var n := |parked| - 1;
      var last := parked[n];
      QueueRemoved(store, parked[..n], key, t);
      var queue := QueueOf(store, parked[..n], key);
      if WaitsOn(store, last, key) {
        assert (queue + [last])[..|queue|] == queue;
      } else {
        assert queue + [] == queue;
      }
    }
  }

  lemma QueueParked(store: Requests, parked: seq<Ts>, key: Key, t: Ts, e: RequestEntry)
    requires t !in parked
    ensures QueueOf(store[t := e], parked + [t], key)
         == QueueOf(store, parked, key) + (if e.ListReq? && e.key == key then [t] else [])
  {
    assert (parked + [t])[..|parked|] == parked;
    QueueSame(store, store[t := e], parked, key);
  }

  // ----- Free slots

  /** The slot search ends at a free deadline, not before the requested one, and every slot passed over is taken. */
  lemma {:induction false} FreeSlotIs(deadlines: map<nat, Ts>, d: nat)
    ensures var slot := FreeSlot(deadlines, d);
            && d <= slot && slot !in deadlines
            && (forall x :: d <= x < slot ==> x in deadlines)
            && slot - d <= |Later(deadlines.Keys, d)|
    decreases Later(deadlines.Keys, d)
  {
    if d in deadlines {
      assert d in Later(deadlines.Keys, d) && d !in Later(deadlines.Keys, d + 1);
      assert Later(deadlines.Keys, d + 1) == Later(deadlines.Keys, d) - {d};
      FreeSlotIs(deadlines, d + 1);
    }
  }

  /** Hence it is later than requested by at most the number of pending timed requests. */
  lemma FreeSlotIsNear(deadlines: map<nat, Ts>, d: nat)
    ensures FreeSlot(deadlines, d) <= d + |deadlines|
  {
    FreeSlotIs(deadlines, d);
    var later := Later(deadlines.Keys, d);
    assert deadlines.Keys == later + (deadlines.Keys - later);
  }

  // ----- Owing

  lemma {:induction false} OwingSame(acks: Debts, acks': Debts, client: Client, slaves: seq<Client>)
    requires forall s :: s in slaves ==> (Owes(acks, s, client) <==> Owes(acks', s, client))
    ensures Owing(acks, client, slaves) == Owing(acks', client, slaves)
  {
    if slaves != [] {
      OwingSame(acks, acks', client, slaves[..|slaves| - 1]);
    }
  }

  lemma {:induction false} AllOwing(acks: Debts, client: Client, slaves: seq<Client>)
    requires forall s :: s in slaves ==> Owes(acks, s, client)
    ensures Owing(acks, client, slaves) == |slaves|
  {
    if slaves != [] {
      AllOwing(acks, client, slaves[..|slaves| - 1]);
    }
  }

  // ----- Parking keeps the indexes

  /** What a caller of `insert` provides: a timestamp never used before, and one WAIT per client. */
  ghost predicate CanPark(r: Reg, parked: seq<Ts>, t: Ts, deadline: nat, e: RequestEntry) {
    && t !in parked
    && e.deadline == deadline
    && (e.WaitReq? ==> e.client !in r.waits && NoDup(e.slaves) && e.actual == 0)
  }

  lemma InsertDeadlines(r: Reg, t: Ts, deadline: nat, e: RequestEntry)
    requires DeadlinesAgree(r.store, r.deadlines) && t !in r.store && e.deadline == deadline
    ensures var r' := Inserted(r, t, deadline, e); DeadlinesAgree(r'.store, r'.deadlines)
  {
    if deadline > 0 {
      FreeSlotIs(r.deadlines, deadline);
    }
  }

  lemma InsertLists(r: Reg, parked: seq<Ts>, t: Ts, deadline: nat, e: RequestEntry)
    requires ListsAgree(r.store, r.lists, parked) && t !in parked && NoDup(parked)
    ensures var r' := Inserted(r, t, deadline, e); ListsAgree(r'.store, r'.lists, parked + [t])
  {
    hide FreeSlot, AcksWith;
    var r' := Inserted(r, t, deadline, e);
    forall key
      ensures QueueOf(r'.store, parked + [t], key) == Waiting(r'.lists, key)
    {
      QueueParked(r.store, parked, key, t, r'.store[t]);
      assert QueueOf(r.store, parked, key) + [] == QueueOf(r.store, parked, key);
      assert QueueOf(r.store, parked, key) == Waiting(r.lists, key);
    }
  }

  /** The WAITs of two stores are the same. */
  ghost predicate SameWaits(store: Requests, store': Requests) {
    forall t :: (IsWait(store, t) <==> IsWait(store', t)) && (IsWait(store, t) ==> store[t] == store'[t])
  }

  lemma WaitsFrame(store: Requests, store': Requests, waits: map<Client, Ts>, acks: Debts)
    requires SameWaits(store, store')
    requires WaitsAgree(store, waits) && AcksAgree(store, waits, acks) && Accounted(store, acks)
    ensures WaitsAgree(store', waits) && AcksAgree(store', waits, acks) && Accounted(store', acks)
  {
    hide Balanced, DebtsTidy;
  }

  lemma NewDebts(store: Requests, waits: map<Client, Ts>, acks: Debts, slaves: seq<Client>, client: Client)
    requires AcksAgree(store, waits, acks) && client !in waits
    ensures var acks' := AcksWith(acks, slaves, client);
            && DebtsTidy(acks')
            && (forall s, c :: Owes(acks', s, c) <==> Owes(acks, s, c) || (c == client && s in slaves))
  {
    var acks' := AcksWith(acks, slaves, client);
    forall s | s in acks'
      ensures acks'[s] != [] && NoDup(acks'[s])
    {
      assert !Owes(acks, s, client);
    }
  }

  lemma WaitInserted(store: Requests, waits: map<Client, Ts>, acks: Debts, t: Ts, e: RequestEntry)
    requires WaitsAgree(store, waits) && AcksAgree(store, waits, acks) && Accounted(store, acks)
    requires t !in store && e.WaitReq? && e.client !in waits && NoDup(e.slaves) && e.actual == 0
    ensures var acks' := AcksWith(acks, e.slaves, e.client);
            && WaitsAgree(store[t := e], waits[e.client := t])
            && AcksAgree(store[t := e], waits[e.client := t], acks')
            && Accounted(store[t := e], acks')
  {
    var acks' := AcksWith(acks, e.slaves, e.client);
    NewDebts(store, waits, acks, e.slaves, e.client);
    hide AcksWith, DebtsTidy;
    AllOwing(acks', e.client, e.slaves);
    var store' := store[t := e];
    forall u | IsWait(store', u)
      ensures Balanced(store'[u], acks')
    {
      if u != t {
        assert Balanced(store[u], acks);
        OwingSame(acks, acks', store[u].client, store[u].slaves);
      }
    }
  }

  lemma InsertConsistent(r: Reg, parked: seq<Ts>, t: Ts, deadline: nat, e: RequestEntry)
    requires Consistent(r, parked) && CanPark(r, parked, t, deadline, e)
    ensures Consistent(Inserted(r, t, deadline, e), parked + [t])
  {
    hide AcksAgree, Accounted, AcksWith, FreeSlot;
    InsertDeadlines(r, t, deadline, e);
    InsertLists(r, parked, t, deadline, e);
    hide ListsAgree, DeadlinesAgree, ListsWith;
    var r' := Inserted(r, t, deadline, e);
    assert StreamsAgree(r'.store, r'.streams);
    hide StreamsAgree;
    if e.WaitReq? {
      WaitInserted(r.store, r.waits, r.acks, t, r'.store[t]);
    } else {
      WaitsFrame(r.store, r'.store, r.waits, r.acks);
    }
  }

  /** One pending WAIT per client is exactly what `insert` needs: a second one breaks the wait map. */
  lemma SecondWaitBreaks(r: Reg, parked: seq<Ts>, t: Ts, deadline: nat, e: RequestEntry)
    requires Consistent(r, parked) && t !in parked && e.WaitReq? && NoDup(e.slaves) && e.actual == 0 && e.deadline == deadline
    ensures Consistent(Inserted(r, t, deadline, e), parked + [t]) <==> e.client !in r.waits
  {
    if e.client in r.waits {
      var u := r.waits[e.client];
      assert IsWait(r.store, u) && u != t;
      assert IsWait(Inserted(r, t, deadline, e).store, u);
    } else {
      InsertConsistent(r, parked, t, deadline, e);
    }
  }

  // ----- Removing keeps the indexes

  lemma KeyRemoved(store: Requests, lists: map<Key, seq<Ts>>, parked: seq<Ts>, t: Ts, key: Key)
    requires ListsAgree(store, lists, parked) && NoDup(parked)
    ensures QueueOf(store - {t}, parked, key) == Without(Waiting(lists, key), t)
    ensures !WaitsOn(store, t, key) ==> Without(Waiting(lists, key), t) == Waiting(lists, key)
  {
    assert QueueOf(store, parked, key) == Waiting(lists, key);
    QueueRemoved(store, parked, key, t);
    QueueMembers(store, parked, key);
    if !WaitsOn(store, t, key) {
      WithoutAbsent(Waiting(lists, key), t);
    }
  }

  lemma ListsRemoved(store: Requests, lists: map<Key, seq<Ts>>, parked: seq<Ts>, t: Ts)
    requires ListsAgree(store, lists, parked) && NoDup(parked)
    requires t in store
    ensures var lists' := if store[t].ListReq? then ListsWithout(lists, store[t].key, t) else lists;
            && ListsAgree(store - {t}, lists', parked)
            && (forall key :: Waiting(lists', key) == Without(Waiting(lists, key), t))
  {
    var lists' := if store[t].ListReq? then ListsWithout(lists, store[t].key, t) else lists;
    forall key
      ensures QueueOf(store - {t}, parked, key) == Waiting(lists', key) == Without(Waiting(lists, key), t)
    {
      KeyRemoved(store, lists, parked, t, key);
      hide QueueOf, Without;
    }
  }

  lemma DebtsForgiven(acks: Debts, slaves: seq<Client>, client: Client)
    requires DebtsTidy(acks)
    ensures var acks' := AcksWithout(acks, slaves, client);
            && DebtsTidy(acks')
            && (forall s, c :: Owes(acks', s, c) <==> Owes(acks, s, c) && (c == client ==> s !in slaves))
  {
    var acks' := AcksWithout(acks, slaves, client);
    forall s | s in acks'
      ensures acks'[s] != [] && NoDup(acks'[s])
    {
      WithoutNoDup(acks[s], client);
    }
    forall s, c
      ensures Owes(acks', s, c) <==> Owes(acks, s, c) && (c == client ==> s !in slaves)
    {
      if s in acks {
        assert c in Without(acks[s], client) <==> c in acks[s] && c != client;
      }
    }
  }

  lemma WaitRemoved(store: Requests, waits: map<Client, Ts>, acks: Debts, t: Ts)
    requires WaitsAgree(store, waits) && AcksAgree(store, waits, acks) && Accounted(store, acks)
    requires IsWait(store, t)
    ensures var e := store[t];
            var acks' := AcksWithout(acks, e.slaves, e.client);
            && WaitsAgree(store - {t}, waits - {e.client})
            && AcksAgree(store - {t}, waits - {e.client}, acks')
            && Accounted(store - {t}, acks')
  {
    var e := store[t];
    var acks' := AcksWithout(acks, e.slaves, e.client);
    DebtsForgiven(acks, e.slaves, e.client);
    hide AcksWithout, DebtsTidy;
    forall u | IsWait(store - {t}, u)
      ensures Balanced(store[u], acks')
    {
      assert IsWait(store, u) && Balanced(store[u], acks);
      OwingSame(acks, acks', store[u].client, store[u].slaves);
    }
  }

  lemma RemoveOthers(r: Reg, t: Ts)
    requires t in r.store && StreamsAgree(r.store, r.streams) && DeadlinesAgree(r.store, r.deadlines)
    requires WaitsAgree(r.store, r.waits) && AcksAgree(r.store, r.waits, r.acks) && Accounted(r.store, r.acks)
    ensures var r' := Removed(r, t);
            && StreamsAgree(r'.store, r'.streams) && DeadlinesAgree(r'.store, r'.deadlines)
            && WaitsAgree(r'.store, r'.waits) && AcksAgree(r'.store, r'.waits, r'.acks) && Accounted(r'.store, r'.acks)
  {
    hide WaitsAgree, AcksAgree, Accounted;
    var e := r.store[t];
    assert StreamsAgree(r.store - {t}, if e.StreamReq? then r.streams - {t} else r.streams);
    assert DeadlinesAgree(r.store - {t}, r.deadlines - {e.deadline});
    hide StreamsAgree, DeadlinesAgree, WaitsAgree, AcksAgree, Accounted, AcksWithout, ListsWithout;
    if e.WaitReq? {
      WaitRemoved(r.store, r.waits, r.acks, t);
    } else {
      WaitsFrame(r.store, r.store - {t}, r.waits, r.acks);
    }
  }

  lemma RemoveConsistent(r: Reg, parked: seq<Ts>, t: Ts)
    requires Consistent(r, parked)
    ensures Consistent(Removed(r, t), parked)
    ensures Removed(r, t).store == r.store - {t}
    ensures Removed(r, t).txns == r.txns && Removed(r, t).watches == r.watches
    ensures forall key :: Waiting(Removed(r, t).lists, key) == Without(Waiting(r.lists, key), t)
  {
    if t in r.store {
      hide ListsAgree, DeadlinesAgree, StreamsAgree, WaitsAgree, AcksAgree, Accounted, Waiting, ListsWithout, AcksWithout;
      ListsRemoved(r.store, r.lists, parked, t);
      RemoveOthers(r, t);
    } else {
      forall key
        ensures Without(Waiting(r.lists, key), t) == Waiting(r.lists, key)
      {
        KeyRemoved(r.store, r.lists, parked, t, key);
      }
    }
  }

  /** The `remove` inside a fired task finds nothing: the caller has removed the request already. */
  lemma RemoveTwice(r: Reg, t: Ts)
    ensures Removed(Removed(r, t), t) == Removed(r, t)
  {
    hide ListsWithout, AcksWithout;
  }

  lemma AppendedThenRemoved(s: seq<nat>, x: nat)
    requires x !in s
    ensures Without(s + [x], x) == s
  {
    assert (s + [x])[..|s|] == s;
    WithoutAbsent(s, x);
  }

  lemma DebtsUndone(store: Requests, waits: map<Client, Ts>, acks: Debts, slaves: seq<Client>, client: Client)
    requires AcksAgree(store, waits, acks) && client !in waits
    ensures AcksWithout(AcksWith(acks, slaves, client), slaves, client) == acks
  {
    var acks' := AcksWith(acks, slaves, client);
    forall s | s in acks'
      ensures s in slaves ==> Without(acks'[s], client) == (if s in acks then acks[s] else [])
    {
      assert !Owes(acks, s, client);
      AppendedThenRemoved(if s in acks then acks[s] else [], client);
    }
  }

  /** A request that is inserted and removed leaves the registry as it was. */
  lemma RemoveUndoesInsert(r: Reg, parked: seq<Ts>, t: Ts, deadline: nat, e: RequestEntry)
    requires Consistent(r, parked) && CanPark(r, parked, t, deadline, e)
    ensures Removed(Inserted(r, t, deadline, e), t) == r
  {
    FreeSlotIs(r.deadlines, deadline);
    match e
    case ListReq(_, key, _) =>
      QueueMembers(r.store, parked, key);
      assert QueueOf(r.store, parked, key) == Waiting(r.lists, key);
      hide QueueOf, FreeSlot, Consistent;
      ListUndone(r.lists, key, t);
      StoreUndone(r, t, deadline, e);
    case StreamReq(_, _, _, _) =>
      hide FreeSlot, Consistent;
      StoreUndone(r, t, deadline, e);
    case WaitReq(client, _, _, _, _, slaves) =>
      DebtsUndone(r.store, r.waits, r.acks, slaves, client);
      hide FreeSlot, Consistent, AcksWith, AcksWithout;
      StoreUndone(r, t, deadline, e);
  }

  lemma ListUndone(lists: map<Key, seq<Ts>>, key: Key, t: Ts)
    requires t !in Waiting(lists, key) && (key in lists ==> lists[key] != [])
    ensures ListsWithout(lists[key := Waiting(lists, key) + [t]], key, t) == lists
  {
    AppendedThenRemoved(Waiting(lists, key), t);
  }

  lemma StoreUndone(r: Reg, t: Ts, deadline: nat, e: RequestEntry)
    requires t !in r.store && t !in r.streams && e.deadline == deadline && 0 !in r.deadlines
    requires FreeSlot(r.deadlines, deadline) !in r.deadlines
    ensures var r'' := Removed(Inserted(r, t, deadline, e), t);
            && r''.store == r.store && r''.deadlines == r.deadlines
            && (!e.ListReq? ==> r''.lists == r.lists)
            && r''.streams == r.streams
            && (e.WaitReq? && e.client !in r.waits ==> r''.waits == r.waits)
  {
    hide AcksWith, AcksWithout, FreeSlot;
  }

  lemma {:induction false} RemoveAllConsistent(r: Reg, parked: seq<Ts>, ts: seq<Ts>)
    requires Consistent(r, parked)
    ensures var r' := RemovedAll(r, ts);
            && Consistent(r', parked)
            && r'.store == r.store - Elements(ts)
            && r'.txns == r.txns && r'.watches == r.watches
  {
    hide Consistent, Removed, Waiting;
    if ts != [] {
      var n := |ts| - 1;
      RemoveAllConsistent(r, parked, ts[..n]);
      RemoveConsistent(RemovedAll(r, ts[..n]), parked, ts[n]);
      assert Elements(ts) == Elements(ts[..n]) + {ts[n]};
    }
  }

  function Elements(ts: seq<Ts>): set<Ts> {
    set t | t in ts
  }
}
