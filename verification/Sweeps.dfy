/** What a sweep does to waiters, items and readers. */
module Sweeps {
  import opened Base
  import opened Commands
  import opened Registry
  import opened RegistryInvariant
  import opened Store
  import opened Handler
  import opened Blocking

  // ----- Removing the chosen requests

  /** `s` without the members of `gone`, in order. */
  function Minus(s: seq<Ts>, gone: set<Ts>): seq<Ts> {
    if s == [] then []
    else Minus(s[..|s| - 1], gone) + (if s[|s| - 1] in gone then [] else [s[|s| - 1]])
  }

  lemma {:induction false} MinusAppend(a: seq<Ts>, b: seq<Ts>, gone: set<Ts>)
    ensures Minus(a + b, gone) == Minus(a, gone) + Minus(b, gone)
  {
    if b == [] {
      assert a + b == a;
    } else {
      MinusAppend(a, b[..|b| - 1], gone);
      assert (a + b)[..|a + b| - 1] == a + b[..|b| - 1];
    }
  }

  lemma {:induction false} QueueMinus(store: Requests, parked: seq<Ts>, key: Key, gone: set<Ts>)
    ensures QueueOf(store - gone, parked, key) == Minus(QueueOf(store, parked, key), gone)
  {
    if parked != [] {
      var n := |parked| - 1;
      QueueMinus(store, parked[..n], key, gone);
      var last := if WaitsOn(store, parked[n], key) then [parked[n]] else [];
      MinusAppend(QueueOf(store, parked[..n], key), last, gone);
      if last != [] {
        assert last[..0] == [];
      }
    }
  }

  /** Taking away a first part of a queue leaves the rest of it. */
  lemma {:induction false} MinusPrefix(s: seq<Ts>, n: nat, gone: set<Ts>)
    requires n <= |s| && forall i :: 0 <= i < |s| ==> (s[i] in gone <==> i < n)
    ensures Minus(s, gone) == s[n..]
  {
    if s != [] {
      var m := |s| - 1;
      var all := s[..m];
      assert forall i :: 0 <= i < m ==> all[i] == s[i];
      if n == |s| {
        MinusPrefix(all, m, gone);
        assert all[m..] == [];
      } else {
        MinusPrefix(all, n, gone);
        assert s[n..] == all[n..] + [s[m]];
      }
    }
  }

  function TasksOf(store: Requests, ts: seq<Ts>): seq<Task>
    requires forall t :: t in ts ==> t in store
  {
    seq(|ts|, i requires 0 <= i < |ts| => Task(ts[i], store[ts[i]]))
  }

  lemma {:induction false} CollectedIs(r: Reg, parked: seq<Ts>, ts: seq<Ts>)
    requires Consistent(r, parked) && NoDup(ts) && forall t :: t in ts ==> t in r.store
    ensures Collected(r, ts) == (RemovedAll(r, ts), TasksOf(r.store, ts))
  {
    if ts != [] {
      var n := |ts| - 1;
      CollectedIs(r, parked, ts[..n]);
      RemoveAllConsistent(r, parked, ts[..n]);
      hide Consistent, Removed;
      assert ts[n] !in ts[..n];
      assert TasksOf(r.store, ts) == TasksOf(r.store, ts[..n]) + [Task(ts[n], r.store[ts[n]])];
    }
  }

  // ----- The list sweep: who is chosen

  ghost predicate Enumerates<T(!new)>(order: seq<T>, all: set<T>) {
    NoDup(order) && forall x :: x in order <==> x in all
  }

  /** The requests among `ts` that wait on `key`. */
  function OnKey(store: Requests, ts: seq<Ts>, key: Key): seq<Ts> {
    QueueOf(store, ts, key)
  }

  lemma {:induction false} OnKeyAppend(store: Requests, a: seq<Ts>, b: seq<Ts>, key: Key)
    ensures OnKey(store, a + b, key) == OnKey(store, a, key) + OnKey(store, b, key)
  {
    if b == [] {
      assert a + b == a;
    } else {
      OnKeyAppend(store, a, b[..|b| - 1], key);
      assert (a + b)[..|a + b| - 1] == a + b[..|b| - 1];
    }
  }

  lemma {:induction false} OnKeyUniform(store: Requests, ts: seq<Ts>, own: Key, key: Key)
    requires forall t :: t in ts ==> WaitsOn(store, t, own)
    ensures OnKey(store, ts, key) == if key == own then ts else []
  {
    if ts != [] {
      OnKeyUniform(store, ts[..|ts| - 1], own, key);
      assert WaitsOn(store, ts[|ts| - 1], own);
      assert ts[..|ts| - 1] + [ts[|ts| - 1]] == ts;
    }
  }

  function FirstWaiters(r: Reg, data: Data, key: Key): seq<Ts> {
    if key in r.lists then r.lists[key][..MaxPop(data, r, key)] else []
  }

  lemma WaitersOnKey(r: Reg, parked: seq<Ts>, key: Key)
    requires Consistent(r, parked)
    ensures NoDup(Waiting(r.lists, key)) && forall t :: t in Waiting(r.lists, key) ==> WaitsOn(r.store, t, key)
  {
    QueueMembers(r.store, parked, key);
    assert QueueOf(r.store, parked, key) == Waiting(r.lists, key);
  }

  /** Of each key walked, a sweep chooses the first waiters, in order and once. */
  lemma {:induction false} ChosenOnKey(r: Reg, parked: seq<Ts>, data: Data, order: seq<Key>, key: Key)
    requires Consistent(r, parked) && NoDup(order)
    ensures OnKey(r.store, ChosenWaiters(r, data, order), key) == if key in order then FirstWaiters(r, data, key) else []
  {
    if order != [] {
      var n := |order| - 1;
      var own := order[n];
      ChosenOnKey(r, parked, data, order[..n], key);
      WaitersOnKey(r, parked, own);
      assert own !in order[..n];
      var first := FirstWaiters(r, data, own);
      hide Consistent, QueueOf, MaxPop;
      OnKeyAppend(r.store, ChosenWaiters(r, data, order[..n]), first, key);
      OnKeyUniform(r.store, first, own, key);
    }
  }

  lemma {:induction false} ChosenWaitersAre(r: Reg, parked: seq<Ts>, data: Data, order: seq<Key>)
    requires Consistent(r, parked) && NoDup(order)
    ensures NoDup(ChosenWaiters(r, data, order))
    ensures forall t :: t in ChosenWaiters(r, data, order) ==> t in r.store && r.store[t].ListReq? && r.store[t].key in order
  {
    if order != [] {
      var n := |order| - 1;
      ChosenWaitersAre(r, parked, data, order[..n]);
      FirstWaitersOnKey(r, parked, data, order[n]);
      assert order[n] !in order[..n];
      hide Consistent, MaxPop, FirstWaiters;
      assert ChosenWaiters(r, data, order) == ChosenWaiters(r, data, order[..n]) + FirstWaiters(r, data, order[n]);
      var chosen, first := ChosenWaiters(r, data, order[..n]), FirstWaiters(r, data, order[n]);
      forall i | 0 <= i < |first|
        ensures first[i] !in chosen
      {
        assert WaitsOn(r.store, first[i], order[n]);
      }
      NoDupConcat(chosen, first);
    }
  }

  lemma FirstWaitersOnKey(r: Reg, parked: seq<Ts>, data: Data, key: Key)
    requires Consistent(r, parked)
    ensures NoDup(FirstWaiters(r, data, key)) && forall t :: t in FirstWaiters(r, data, key) ==> WaitsOn(r.store, t, key)
    ensures FirstWaiters(r, data, key) == if key in r.lists then r.lists[key][..MaxPop(data, r, key)] else []
  {
    WaitersOnKey(r, parked, key);
  }

  // ----- The list sweep: what each gets

  /** The data differ in the items of lists alone. */
  ghost predicate SameButItems(data: Data, data': Data) {
    && data'.Keys == data.Keys
    && forall key :: key in data ==>
         if data[key].value.List? then data'[key] == data[key].(value := List(ItemsOf(data', key)))
         else data'[key] == data[key]
  }

  /** The pops reported for `key`, in order. */
  function PopsOf(queue: seq<Message>, key: Key): seq<Message> {
    if queue == [] then []
    else
      var m := queue[|queue| - 1];
      PopsOf(queue[..|queue| - 1], key) + (if m.body.Popped? && m.body.key == key then [m] else [])
  }

  function TasksOnKey(tasks: seq<Task>, key: Key): seq<Task> {
    if tasks == [] then []
    else
      var task := tasks[|tasks| - 1];
      TasksOnKey(tasks[..|tasks| - 1], key) + (if task.entry.ListReq? && task.entry.key == key then [task] else [])
  }

  /** One item to each task, first to first. */
  function Deal(tasks: seq<Task>, key: Key, items: seq<Bytes>): seq<Message>
    requires |tasks| <= |items|
  {
    seq(|tasks|, i requires 0 <= i < |tasks| => Message(tasks[i].entry.client, Popped(key, items[i])))
  }

  function Stamps(tasks: seq<Task>): seq<Ts> {
    seq(|tasks|, i requires 0 <= i < |tasks| => tasks[i].t)
  }

  function Clients(tasks: seq<Task>): seq<Client> {
    seq(|tasks|, i requires 0 <= i < |tasks| => tasks[i].entry.client)
  }

  /** What running list tasks comes to, when there are items for all. */
  ghost predicate Dealt(h: Handler, tasks: seq<Task>, h': Handler) {
    && SameButItems(h.data, h'.data)
    && h' == h.(data := h'.data, queue := h'.queue, answers := h.answers + Stamps(tasks))
    && Addressees(h'.queue) == Addressees(h.queue) + Clients(tasks)
    && forall key :: DealtOnKey(h, tasks, h', key)
  }

  ghost predicate DealtOnKey(h: Handler, tasks: seq<Task>, h': Handler, key: Key) {
    var on := TasksOnKey(tasks, key);
    var items := ItemsOf(h.data, key);
    && |on| <= |items|
    && ItemsOf(h'.data, key) == items[|on|..]
    && PopsOf(h'.queue, key) == PopsOf(h.queue, key) + Deal(on, key, items)
  }

  lemma PopsOfOne(queue: seq<Message>, m: Message, key: Key)
    ensures PopsOf(queue + [m], key) == PopsOf(queue, key) + (if m.body.Popped? && m.body.key == key then [m] else [])
    ensures Addressees(queue + [m]) == Addressees(queue) + (if IsAnswer(m) then [m.to] else [])
  {
    assert (queue + [m])[..|queue|] == queue;
  }

  /** What a list task does when there is an item for it. */
  ghost predicate PoppedOne(before: Handler, task: Task, after: Handler, m: Message)
    requires task.entry.ListReq?
  {
    var own := task.entry.key;
    && ItemsOf(before.data, own) != []
    && m == Message(task.entry.client, Popped(own, ItemsOf(before.data, own)[0]))
    && after == before.(data := after.data, queue := before.queue + [m], answers := before.answers + [task.t])
    && SameButItems(before.data, after.data)
    && forall key :: ItemsOf(after.data, key) == if key == own then ItemsOf(before.data, key)[1..] else ItemsOf(before.data, key)
  }

  lemma TaskPops(before: Handler, task: Task)
    requires task.entry.ListReq? && task.t !in before.reg.store && ItemsOf(before.data, task.entry.key) != []
    ensures PoppedOne(before, task, RunListTask(before, task), RunListTask(before, task).queue[|before.queue|])
    ensures |RunListTask(before, task).queue| == |before.queue| + 1
  {
    assert Registry.Removed(before.reg, task.t) == before.reg;
    hide Registry.Removed;
  }

  lemma SameButItemsTwice(a: Data, b: Data, c: Data)
    requires SameButItems(a, b) && SameButItems(b, c)
    ensures SameButItems(a, c)
  {
    hide ItemsOf;
    forall key | key in a
      ensures if a[key].value.List? then c[key] == a[key].(value := List(ItemsOf(c, key))) else c[key] == a[key]
    {
      assert key in b;
    }
  }

  lemma OneMoreDealt(h: Handler, tasks: seq<Task>, before: Handler, task: Task)
    requires Dealt(h, tasks, before) && task.entry.ListReq? && task.t !in h.reg.store
    requires |TasksOnKey(tasks, task.entry.key)| < |ItemsOf(h.data, task.entry.key)|
    ensures Dealt(h, tasks + [task], RunListTask(before, task))
  {
    assert DealtOnKey(h, tasks, before, task.entry.key);
    assert ItemsOf(before.data, task.entry.key) != [];
    hide TasksOnKey, ItemsOf, SameButItems, RunListTask, Addressees, PopsOf, Deal;
    TaskPops(before, task);
    var after := RunListTask(before, task);
    var m := after.queue[|before.queue|];
    assert SameButItems(before.data, after.data);
    SameButItemsTwice(h.data, before.data, after.data);
    PopsOfOne(before.queue, m, task.entry.key);
    assert Stamps(tasks + [task]) == Stamps(tasks) + [task.t];
    assert Clients(tasks + [task]) == Clients(tasks) + [task.entry.client];
    forall key
      ensures DealtOnKey(h, tasks + [task], after, key)
    {
      OneMoreOnKey(h, tasks, before, task, after, m, key);
    }
    Regroup(h.answers, Stamps(tasks), [task.t]);
    Regroup(Addressees(h.queue), Clients(tasks), [task.entry.client]);
    hide DealtOnKey, Stamps, Clients;
  }

  lemma OneMoreOnKey(h: Handler, tasks: seq<Task>, before: Handler, task: Task, after: Handler, m: Message, key: Key)
    requires DealtOnKey(h, tasks, before, key) && task.entry.ListReq? && PoppedOne(before, task, after, m)
    ensures DealtOnKey(h, tasks + [task], after, key)
  {
    PopsOfOne(before.queue, m, key);
    LastOnKey(tasks, task, key);
    hide TasksOnKey, ItemsOf, SameButItems, PopsOf, Addressees;
    if key == task.entry.key {
      var all, on := ItemsOf(h.data, key), TasksOnKey(tasks, key);
      DealOneMore(on, task, key, all);
      hide Deal;
      Regroup(PopsOf(h.queue, key), Deal(on, key, all), [m]);
    }
  }

  lemma LastOnKey(tasks: seq<Task>, task: Task, key: Key)
    requires task.entry.ListReq?
    ensures TasksOnKey(tasks + [task], key) == TasksOnKey(tasks, key) + (if task.entry.key == key then [task] else [])
  {
    assert (tasks + [task])[..|tasks|] == tasks;
  }

  lemma DealOneMore(on: seq<Task>, task: Task, key: Key, all: seq<Bytes>)
    requires |on| < |all|
    ensures Deal(on + [task], key, all) == Deal(on, key, all) + [Message(task.entry.client, Popped(key, all[|on|..][0]))]
  {
  }

  lemma {:induction false} ListTasksDeal(h: Handler, tasks: seq<Task>)
    requires forall i :: 0 <= i < |tasks| ==> tasks[i].entry.ListReq? && tasks[i].t !in h.reg.store
    requires forall key :: |TasksOnKey(tasks, key)| <= |ItemsOf(h.data, key)|
    ensures Dealt(h, tasks, RunTasks(h, tasks))
  {
    if tasks == [] {
      NothingDealt(h);
    } else {
      var n := |tasks| - 1;
      var own := tasks[n].entry.key;
      assert tasks[..n] + [tasks[n]] == tasks;
      hide Dealt, RunListTask, TasksOnKey, ItemsOf;
      forall key
        ensures |TasksOnKey(tasks[..n], key)| + (if key == own then 1 else 0) <= |ItemsOf(h.data, key)|
      {
        LastOnKey(tasks[..n], tasks[n], key);
      }
      ListTasksDeal(h, tasks[..n]);
      OneMoreDealt(h, tasks[..n], RunTasks(h, tasks[..n]), tasks[n]);
    }
  }

  lemma NothingDealt(h: Handler)
    ensures Dealt(h, [], h)
  {
    assert h.answers + Stamps([]) == h.answers;
    assert Addressees(h.queue) + Clients([]) == Addressees(h.queue);
    forall key
      ensures DealtOnKey(h, [], h, key)
    {
      assert PopsOf(h.queue, key) + Deal([], key, ItemsOf(h.data, key)) == PopsOf(h.queue, key);
    }
  }

  // ----- The list sweep as a whole

  lemma {:induction false} TasksOnKeyAre(store: Requests, ts: seq<Ts>, key: Key)
    requires forall t :: t in ts ==> t in store
    ensures forall t :: t in OnKey(store, ts, key) ==> t in store
    ensures TasksOnKey(TasksOf(store, ts), key) == TasksOf(store, OnKey(store, ts, key))
  {
    if ts != [] {
      var n := |ts| - 1;
      TasksOnKeyAre(store, ts[..n], key);
      assert TasksOf(store, ts)[..n] == TasksOf(store, ts[..n]);
    }
  }

  function ClientsOf(store: Requests, ts: seq<Ts>): seq<Client>
    requires forall t :: t in ts ==> t in store
  {
    seq(|ts|, i requires 0 <= i < |ts| => store[ts[i]].client)
  }

  /** One item to each client, first to first. */
  function DealTo(clients: seq<Client>, key: Key, items: seq<Bytes>): seq<Message>
    requires |clients| <= |items|
  {
    seq(|clients|, i requires 0 <= i < |clients| => Message(clients[i], Popped(key, items[i])))
  }

  /** How many waiters of a key a sweep serves. */
  function Matches(h: Handler, key: Key): nat {
    Min(|Waiting(h.reg.lists, key)|, |ItemsOf(h.data, key)|)
  }

  /** First waiters matched with first items: who is served, with what, and who and what is left. */
  ghost predicate MatchedOnKey(h: Handler, h': Handler, key: Key) {
    var n := Matches(h, key);
    var waiters, items := Waiting(h.reg.lists, key), ItemsOf(h.data, key);
    && (forall t :: t in waiters ==> t in h.reg.store)
    && Waiting(h'.reg.lists, key) == waiters[n..]
    && ItemsOf(h'.data, key) == items[n..]
    && PopsOf(h'.queue, key) == PopsOf(h.queue, key) + DealTo(ClientsOf(h.reg.store, waiters[..n]), key, items)
    && (Waiting(h'.reg.lists, key) == [] || ItemsOf(h'.data, key) == [])
  }

  lemma FirstWaitersAre(h: Handler, key: Key)
    requires Valid(h)
    ensures FirstWaiters(h.reg, h.data, key) == Waiting(h.reg.lists, key)[..Matches(h, key)]
  {
  }

  /** The sweep after the chosen requests are removed. */
  function BeforeTasks(h: Handler, ts: seq<Ts>): Handler {
    h.(reg := RemovedAll(h.reg, ts))
  }

  lemma SweepDeals(h: Handler, order: seq<Key>)
    requires Valid(h) && Enumerates(order, h.reg.lists.Keys)
    ensures var ts := ChosenWaiters(h.reg, h.data, order);
            && NoDup(ts)
            && (forall t :: t in ts ==> t in h.reg.store)
            && (forall key :: OnKey(h.reg.store, ts, key) == FirstWaiters(h.reg, h.data, key))
            && Dealt(BeforeTasks(h, ts), TasksOf(h.reg.store, ts), Released(h, ts))
  {
    hide Consistent, Dealt, TasksOnKey, ItemsOf, Collected, RunTasks, ChosenWaiters, FirstWaiters, NoDup, OnKey, RemovedAll;
    var ts := ChosenWaiters(h.reg, h.data, order);
    assert NoDup(order) && Consistent(h.reg, h.parked);
    ChosenWaitersAre(h.reg, h.parked, h.data, order);
    CollectedIs(h.reg, h.parked, ts);
    RemoveAllConsistent(h.reg, h.parked, ts);
    var tasks := TasksOf(h.reg.store, ts);
    forall key
      ensures OnKey(h.reg.store, ts, key) == FirstWaiters(h.reg, h.data, key)
      ensures |TasksOnKey(tasks, key)| <= |ItemsOf(h.data, key)|
    {
      EnoughOnKey(h, order, key);
    }
    hide Valid, Enumerates;
    ListTasksDeal(BeforeTasks(h, ts), tasks);
  }

  /** The chosen waiters of a key are its first ones, and there is an item for each. */
  lemma EnoughOnKey(h: Handler, order: seq<Key>, key: Key)
    requires Valid(h) && Enumerates(order, h.reg.lists.Keys)
    requires forall t :: t in ChosenWaiters(h.reg, h.data, order) ==> t in h.reg.store
    requires NoDup(ChosenWaiters(h.reg, h.data, order))
    ensures var ts := ChosenWaiters(h.reg, h.data, order);
            && OnKey(h.reg.store, ts, key) == FirstWaiters(h.reg, h.data, key)
            && |TasksOnKey(TasksOf(h.reg.store, ts), key)| <= |ItemsOf(h.data, key)|
  {
    var ts := ChosenWaiters(h.reg, h.data, order);
    ChosenOnKey(h.reg, h.parked, h.data, order, key);
    TasksOnKeyAre(h.reg.store, ts, key);
    FirstWaitersAre(h, key);
    hide Valid, Consistent, TasksOnKey, ItemsOf, ChosenWaiters, FirstWaiters, NoDup, OnKey;
  }

  /** A list sweep keeps the invariant: it answers exactly the chosen requests. */
  lemma SweepListsValid(h: Handler, order: seq<Key>)
    requires Valid(h) && Enumerates(order, h.reg.lists.Keys)
    ensures Valid(SweepLists(h, order))
  {
    if h.flagList {
      var ts := ChosenWaiters(h.reg, h.data, order);
      SweepDeals(h, order);
      TasksAnswer(h.reg.store, ts);
      hide Valid, ChosenWaiters, Released, RemovedAll, NoDup, SameButItems, DealtOnKey, Addressees;
      AnsweredAll(h, SweepLists(h, order), ts);
    }
  }

  lemma TasksAnswer(store: Requests, ts: seq<Ts>)
    requires forall t :: t in ts ==> t in store
    ensures Stamps(TasksOf(store, ts)) == ts && Clients(TasksOf(store, ts)) == ClientsOf(store, ts)
  {
  }

  lemma AnswersAdded(h: Handler, ts: seq<Ts>)
    requires Valid(h) && NoDup(ts) && forall t :: t in ts ==> t in h.reg.store
    ensures AnsweredOnce(h.reg.store - Elements(ts), h.parked, h.asked, h.answers + ts)
    ensures Owners(h.asked, h.answers + ts) == Addressees(h.queue) + ClientsOf(h.reg.store, ts)
  {
    RemovedOnce(h.reg.store, h.parked, h.asked, h.answers, ts);
    hide Consistent, Addressees, Owners, TxnsFit, NoDup;
    OwnersAppend(h.asked, h.answers, ts);
    OwnersAre(h.asked, ts, ClientsOf(h.reg.store, ts));
  }

  lemma UnmetWithout(store: Requests, ts: seq<Ts>)
    requires Unmet(store)
    ensures Unmet(store - Elements(ts))
  {
  }

  /** Removing and answering distinct parked requests keeps the invariant. */
  lemma AnsweredAll(h: Handler, h': Handler, ts: seq<Ts>)
    requires Valid(h) && NoDup(ts) && forall t :: t in ts ==> t in h.reg.store
    requires h'.reg == RemovedAll(h.reg, ts) && h'.parked == h.parked && h'.asked == h.asked
    requires h'.answers == h.answers + ts
    requires Addressees(h'.queue) == Addressees(h.queue) + ClientsOf(h.reg.store, ts)
    ensures Valid(h')
  {
    hide Consistent, RemovedAll, Addressees, Owners, TxnsFit, NoDup;
    AnswersAdded(h, ts);
    RemoveAllConsistent(h.reg, h.parked, ts);
    hide AnsweredOnce, ClientsOf, Unmet;
    UnmetWithout(h.reg.store, ts);
  }

  lemma MatchingOnKey(h: Handler, order: seq<Key>, key: Key)
    requires Valid(h) && Enumerates(order, h.reg.lists.Keys) && h.flagList
    ensures MatchedOnKey(h, SweepLists(h, order), key)
  {
    var ts := ChosenWaiters(h.reg, h.data, order);
    SweepDeals(h, order);
    WaitersOnKey(h.reg, h.parked, key);
    FirstWaitersAre(h, key);
    QueueLeft(h, ts, key, Matches(h, key));
    assert DealtOnKey(BeforeTasks(h, ts), TasksOf(h.reg.store, ts), Released(h, ts), key);
    TasksOnKeyAre(h.reg.store, ts, key);
    hide Valid, Dealt, OnKey, TasksOnKey, ChosenWaiters, Released, RemovedAll, NoDup, Deal, DealTo, ClientsOf, TasksOf, Enumerates;
    DealIsDealTo(h.reg.store, Waiting(h.reg.lists, key)[..Matches(h, key)], key, ItemsOf(h.data, key));
  }

  lemma DealIsDealTo(store: Requests, ts: seq<Ts>, key: Key, items: seq<Bytes>)
    requires |ts| <= |items| && forall t :: t in ts ==> t in store
    ensures Deal(TasksOf(store, ts), key, items) == DealTo(ClientsOf(store, ts), key, items)
  {
  }

  lemma QueueLeft(h: Handler, ts: seq<Ts>, key: Key, n: nat)
    requires Valid(h) && NoDup(ts) && n <= |Waiting(h.reg.lists, key)|
    requires OnKey(h.reg.store, ts, key) == Waiting(h.reg.lists, key)[..n]
    ensures Waiting(RemovedAll(h.reg, ts).lists, key) == Waiting(h.reg.lists, key)[n..]
  {
    var waiters := Waiting(h.reg.lists, key);
    RemoveAllConsistent(h.reg, h.parked, ts);
    var r' := RemovedAll(h.reg, ts);
    assert QueueOf(r'.store, h.parked, key) == Waiting(r'.lists, key);
    assert QueueOf(h.reg.store, h.parked, key) == waiters;
    QueueMinus(h.reg.store, h.parked, key, Elements(ts));
    WaitersOnKey(h.reg, h.parked, key);
    QueueMembers(h.reg.store, ts, key);
    hide Valid, Consistent, RemovedAll, QueueOf;
    forall i | 0 <= i < |waiters|
      ensures waiters[i] in Elements(ts) <==> i < n
    {
      assert waiters[i] in ts <==> waiters[i] in waiters[..n];
      FirstPart(waiters, n, i);
    }
    MinusPrefix(waiters, n, Elements(ts));
  }

  lemma FirstPart(s: seq<Ts>, n: nat, i: nat)
    requires NoDup(s) && n <= |s| && i < |s|
    ensures s[i] in s[..n] <==> i < n
  {
  }

  /**
   * A raised list sweep matches waiters to items first come first served on every key: the old list is the items
   * given to the first waiters followed by the new list, and no key is left with both a waiter and an item.
   */
  lemma SweepMatches(h: Handler, order: seq<Key>)
    requires Valid(h) && Enumerates(order, h.reg.lists.Keys) && h.flagList
    ensures var h' := SweepLists(h, order);
            && Valid(h')
            && SameButItems(h.data, h'.data)
            && forall key :: MatchedOnKey(h, h', key)
  {
    SweepListsValid(h, order);
    SweepDeals(h, order);
    forall key
      ensures MatchedOnKey(h, SweepLists(h, order), key)
    {
      MatchingOnKey(h, order, key);
    }
  }
}
