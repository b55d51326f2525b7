/** Every event keeps the registry consistent and answers each parked request exactly once. */
module Blocking {
  import opened Base
  import opened Commands
  import opened Registry
  import opened RegistryInvariant
  import opened Store
  import opened Handler

  // ----- The invariant

  ghost predicate Valid(h: Handler) {
    && Consistent(h.reg, h.parked)
    && Unmet(h.reg.store)
    && AnsweredOnce(h.reg.store, h.parked, h.asked, h.answers)
    && Addressees(h.queue) == Owners(h.asked, h.answers)
    && TxnsFit(h.reg.txns)
  }

  /** A request ever parked is still parked or has been answered, never both and never twice. */
  ghost predicate AnsweredOnce(store: Requests, parked: seq<Ts>, asked: map<Ts, Client>, answers: seq<Ts>) {
    && NoDup(answers)
    && (forall t :: t in parked <==> t in asked)
    && (forall t :: t in parked <==> t in answers || t in store)
    && (forall t :: t in answers ==> t !in store)
    && (forall t :: t in store ==> t in asked && asked[t] == store[t].client)
  }

  /** Messages that answer a parked request; the others are GETACKs and the replica feed. */
  predicate IsAnswer(m: Message) {
    !m.body.GetAck? && !m.body.Raw?
  }

  function Addressees(queue: seq<Message>): seq<Client> {
    if queue == [] then []
    else
      var m := queue[|queue| - 1];
      Addressees(queue[..|queue| - 1]) + (if IsAnswer(m) then [m.to] else [])
  }

  function Owners(asked: map<Ts, Client>, answers: seq<Ts>): seq<Client> {
    if answers == [] then []
    else
      var t := answers[|answers| - 1];
      Owners(asked, answers[..|answers| - 1]) + (if t in asked then [asked[t]] else [])
  }

  predicate Queueable(cmd: Cmd) {
    !cmd.Exec? && !cmd.Discard? && !cmd.Watch? && !cmd.Wait? && !cmd.ReplconfAck?
  }

  ghost predicate TxnsFit(txns: map<Client, seq<Queued>>) {
    forall c :: c in txns ==> AllQueueable(txns[c])
  }

  predicate AllQueueable(queue: seq<Queued>) {
    forall i :: 0 <= i < |queue| ==> Queueable(queue[i].cmd)
  }

  /** Replies sent and requests still parked add up to the requests parked. */
  lemma Conservation(h: Handler)
    requires Valid(h)
    ensures |h.answers| + |h.reg.store| == |h.parked|
    ensures |Addressees(h.queue)| == |h.answers|
  {
    DistinctSize(h.parked);
    DistinctSize(h.answers);
    var parked, answers := Elements(h.parked), Elements(h.answers);
    assert parked == answers + h.reg.store.Keys;
    OwnersSize(h.asked, h.answers);
  }

  lemma {:induction false} DistinctSize(s: seq<Ts>)
    requires NoDup(s)
    ensures |Elements(s)| == |s|
  {
    if s == [] {
      assert Elements(s) == {};
    } else {
      var n := |s| - 1;
      DistinctSize(s[..n]);
      assert s[n] !in s[..n];
      assert Elements(s) == Elements(s[..n]) + {s[n]};
    }
  }

  lemma {:induction false} OwnersSize(asked: map<Ts, Client>, answers: seq<Ts>)
    requires forall t :: t in answers ==> t in asked
    ensures |Owners(asked, answers)| == |answers|
    ensures forall i :: 0 <= i < |answers| ==> Owners(asked, answers)[i] == asked[answers[i]]
  {
    if answers != [] {
      OwnersSize(asked, answers[..|answers| - 1]);
    }
  }

  // ----- Histories grow

  lemma {:induction false} AddresseesAppend(a: seq<Message>, b: seq<Message>)
    ensures Addressees(a + b) == Addressees(a) + Addressees(b)
  {
    if b == [] {
      assert a + b == a;
    } else {
      AddresseesAppend(a, b[..|b| - 1]);
      assert (a + b)[..|a + b| - 1] == a + b[..|b| - 1];
    }
  }

  lemma {:induction false} NoAddressees(b: seq<Message>)
    requires forall i :: 0 <= i < |b| ==> !IsAnswer(b[i])
    ensures Addressees(b) == []
  {
    if b != [] {
      NoAddressees(b[..|b| - 1]);
    }
  }

  lemma {:induction false} OwnersAppend(asked: map<Ts, Client>, a: seq<Ts>, b: seq<Ts>)
    ensures Owners(asked, a + b) == Owners(asked, a) + Owners(asked, b)
  {
    if b == [] {
      assert a + b == a;
    } else {
      OwnersAppend(asked, a, b[..|b| - 1]);
      assert (a + b)[..|a + b| - 1] == a + b[..|b| - 1];
    }
  }

  lemma {:induction false} OwnersSame(asked: map<Ts, Client>, asked': map<Ts, Client>, answers: seq<Ts>)
    requires forall t :: t in answers ==> t in asked && t in asked' && asked[t] == asked'[t]
    ensures Owners(asked, answers) == Owners(asked', answers)
  {
    if answers != [] {
      OwnersSame(asked, asked', answers[..|answers| - 1]);
    }
  }

  lemma FeedAddsNone(queue: seq<Message>, clients: seq<Client>, body: Body)
    requires body.GetAck? || body.Raw?
    ensures Addressees(queue + ToAll(clients, body)) == Addressees(queue)
  {
    AddresseesAppend(queue, ToAll(clients, body));
    NoAddressees(ToAll(clients, body));
  }

  // ----- Parking

  lemma ParkedOnce(store: Requests, parked: seq<Ts>, asked: map<Ts, Client>, answers: seq<Ts>, t: Ts, e: RequestEntry)
    requires AnsweredOnce(store, parked, asked, answers) && t !in parked
    ensures AnsweredOnce(store[t := e], parked + [t], asked[t := e.client], answers)
    ensures Owners(asked[t := e.client], answers) == Owners(asked, answers)
  {
    OwnersSame(asked, asked[t := e.client], answers);
  }

  lemma ParkValid(h: Handler, t: Ts, e: RequestEntry)
    requires Valid(h) && CanPark(h.reg, h.parked, t, e.deadline, e) && (e.WaitReq? ==> 0 < e.required)
    ensures Valid(Park(h, t, e))
  {
    InsertConsistent(h.reg, h.parked, t, e.deadline, e);
    var h' := Park(h, t, e);
    ParkedOnce(h.reg.store, h.parked, h.asked, h.answers, t, h'.reg.store[t]);
    hide Consistent, FreeSlot, ListsWith, AcksWith, TxnsFit, Addressees, Owners, AnsweredOnce;
    assert Unmet(h'.reg.store);
  }

  // ----- Answers

  lemma RemovedOnce(store: Requests, parked: seq<Ts>, asked: map<Ts, Client>, answers: seq<Ts>, ts: seq<Ts>)
    requires AnsweredOnce(store, parked, asked, answers)
    requires NoDup(ts) && forall t :: t in ts ==> t in store
    ensures AnsweredOnce(store - Elements(ts), parked, asked, answers + ts)
  {
    NoDupConcat(answers, ts);
  }

  lemma OneAnswer(h: Handler, t: Ts, m: Message)
    requires AnsweredOnce(h.reg.store, h.parked, h.asked, h.answers) && Addressees(h.queue) == Owners(h.asked, h.answers)
    requires t in h.reg.store && m.to == h.reg.store[t].client && IsAnswer(m)
    ensures AnsweredOnce(h.reg.store - {t}, h.parked, h.asked, h.answers + [t])
    ensures Addressees(h.queue + [m]) == Owners(h.asked, h.answers + [t])
  {
    RemovedOnce(h.reg.store, h.parked, h.asked, h.answers, [t]);
    assert Elements([t]) == {t};
    AddresseesAppend(h.queue, [m]);
    OwnersAppend(h.asked, h.answers, [t]);
    assert [m][..0] == [] && [t][..0] == [];
  }

  /** A parked request is removed and a message sent to its client. */
  lemma AnswerValid(h: Handler, h': Handler, t: Ts, body: Body)
    requires Valid(h) && t in h.reg.store && !body.GetAck? && !body.Raw?
    requires h'.reg == Removed(h.reg, t)
    requires h'.queue == h.queue + [Message(h.reg.store[t].client, body)]
    requires h'.answers == h.answers + [t] && h'.parked == h.parked && h'.asked == h.asked
    ensures Valid(h')
  {
    RemoveConsistent(h.reg, h.parked, t);
    OneAnswer(h, t, Message(h.reg.store[t].client, body));
    hide Consistent, Removed, Addressees, Owners, AnsweredOnce, TxnsFit, Waiting;
    assert Unmet(h'.reg.store);
  }

  lemma ExpireValid(h: Handler, d: nat)
    requires Valid(h) && d in h.reg.deadlines
    ensures Valid(Expire(h, d))
  {
    var t := h.reg.deadlines[d];
    RemoveTwice(h.reg, t);
    assert t in h.reg.store;
    hide Valid;
    AnswerValid(h, Expire(h, d), t, TimeoutBody(h.reg.store[t]));
  }

  /** A WAIT that times out reports fewer replicas than it asked for. */
  lemma TimedOutWaitFellShort(h: Handler, d: nat)
    requires Valid(h) && d in h.reg.deadlines && h.reg.store[h.reg.deadlines[d]].WaitReq?
    ensures var e := h.reg.store[h.reg.deadlines[d]];
            && Expire(h, d).queue == h.queue + [Message(e.client, Int(e.actual))]
            && e.actual < e.required
            && e.actual + Owing(h.reg.acks, e.client, e.slaves) == |e.slaves|
  {
    assert IsWait(h.reg.store, h.reg.deadlines[d]);
    assert Balanced(h.reg.store[h.reg.deadlines[d]], h.reg.acks);
  }

  // ----- Acknowledgements

  /** The client's WAIT is caught up by an ACK for `offset`. */
  predicate CaughtUp(store: Requests, waits: map<Client, Ts>, c: Client, offset: int) {
    c in waits && IsWait(store, waits[c]) && offset >= store[waits[c]].offset
  }

  /** The entry after an ACK for `offset` from a replica that owes `clients`. */
  function Acked(e: RequestEntry, clients: seq<Client>, offset: int): RequestEntry {
    if e.WaitReq? && e.client in clients && offset >= e.offset then e.(actual := e.actual + 1) else e
  }

  /** The ACK is the last one the client's WAIT needs. */
  predicate Completes(store: Requests, waits: map<Client, Ts>, c: Client, offset: int) {
    CaughtUp(store, waits, c, offset) && store[waits[c]].actual + 1 >= store[waits[c]].required
  }

  /** A reply of exactly the count asked for. */
  predicate ExactReply(store: Requests, waits: map<Client, Ts>, c: Client, m: Message) {
    c in waits && IsWait(store, waits[c]) && m == Message(c, Int(store[waits[c]].required))
  }

  /** What counting an ACK for distinct waiting clients comes to. */
  ghost predicate Counted(store: Requests, waits: map<Client, Ts>, clients: seq<Client>, offset: int, c: Counting) {
    && c.store.Keys == store.Keys
    && (forall t :: t in store ==> c.store[t] == Acked(store[t], clients, offset))
    && NoDup(c.acked) && NoDup(c.served)
    && (forall x :: x in c.acked <==> x in clients && CaughtUp(store, waits, x, offset))
    && (forall x :: x in c.served <==> x in clients && Completes(store, waits, x, offset))
    && |c.replies| == |c.served|
    && (forall i :: 0 <= i < |c.served| ==> ExactReply(store, waits, c.served[i], c.replies[i]))
  }

  lemma CountOneMore(store: Requests, waits: map<Client, Ts>, clients: seq<Client>, client: Client, offset: int, c: Counting)
    requires WaitsAgree(store, waits) && Unmet(store)
    requires client !in clients && client in waits
    requires Counted(store, waits, clients, offset, c)
    ensures Counted(store, waits, clients + [client], offset, CountOne(c, waits, client, offset))
  {
    var t := waits[client];
    assert IsWait(store, t);
    var e := store[t];
    assert c.store[t] == e;
    var c' := CountOne(c, waits, client, offset);
    forall u | u in store
      ensures c'.store[u] == Acked(store[u], clients + [client], offset)
    {
      if u != t && store[u].WaitReq? {
        assert IsWait(store, u);
      }
    }
    hide WaitsAgree, Unmet;
    assert client !in c.acked && client !in c.served;
  }

  lemma {:induction false} CountAllIs(store: Requests, waits: map<Client, Ts>, clients: seq<Client>, offset: int)
    requires WaitsAgree(store, waits) && Unmet(store)
    requires NoDup(clients) && forall c :: c in clients ==> c in waits
    ensures Counted(store, waits, clients, offset, CountAll(store, waits, clients, offset))
  {
    if clients != [] {
      var n := |clients| - 1;
      CountAllIs(store, waits, clients[..n], offset);
      CountOneMore(store, waits, clients[..n], clients[n], offset, CountAll(store, waits, clients[..n], offset));
      assert clients[..n] + [clients[n]] == clients;
    }
  }

  lemma {:induction false} WithoutAllIs(s: seq<Client>, gone: seq<Client>)
    requires NoDup(s)
    ensures NoDup(WithoutAll(s, gone))
    ensures forall x :: x in WithoutAll(s, gone) <==> x in s && x !in gone
  {
    if gone != [] {
      WithoutAllIs(s, gone[..|gone| - 1]);
      WithoutNoDup(WithoutAll(s, gone[..|gone| - 1]), gone[|gone| - 1]);
    }
  }

  lemma DebtsPaidIs(acks: Debts, slave: Client, acked: seq<Client>)
    requires DebtsTidy(acks)
    ensures var acks' := DebtsPaid(acks, slave, acked);
            && DebtsTidy(acks')
            && (forall s, c :: Owes(acks', s, c) <==> Owes(acks, s, c) && (s == slave ==> c !in acked))
  {
    if slave in acks {
      WithoutAllIs(acks[slave], acked);
    }
  }

  lemma {:induction false} OwingMinusOne(acks: Debts, acks': Debts, client: Client, slaves: seq<Client>, slave: Client)
    requires NoDup(slaves) && slave in slaves && Owes(acks, slave, client) && !Owes(acks', slave, client)
    requires forall s :: s in slaves && s != slave ==> (Owes(acks, s, client) <==> Owes(acks', s, client))
    ensures Owing(acks', client, slaves) + 1 == Owing(acks, client, slaves)
  {
    var n := |slaves| - 1;
    if slaves[n] == slave {
      assert slave !in slaves[..n];
      OwingSame(acks, acks', client, slaves[..n]);
    } else {
      OwingMinusOne(acks, acks', client, slaves[..n], slave);
    }
  }

  /** Counting changes nothing the other indexes look at. */
  lemma CountingKeepsLists(store: Requests, lists: map<Key, seq<Ts>>, parked: seq<Ts>, store': Requests, clients: seq<Client>, offset: int)
    requires ListsAgree(store, lists, parked)
    requires store'.Keys == store.Keys && forall t :: t in store ==> store'[t] == Acked(store[t], clients, offset)
    ensures ListsAgree(store', lists, parked)
  {
    forall key
      ensures QueueOf(store', parked, key) == Waiting(lists, key)
    {
      QueueSame(store, store', parked, key);
      assert QueueOf(store, parked, key) == Waiting(lists, key);
    }
  }

  lemma CountingBalances(store: Requests, waits: map<Client, Ts>, acks: Debts, slave: Client, offset: int, c: Counting)
    requires WaitsAgree(store, waits) && AcksAgree(store, waits, acks) && Accounted(store, acks) && slave in acks
    requires Counted(store, waits, acks[slave], offset, c)
    ensures Accounted(c.store, DebtsPaid(acks, slave, c.acked))
  {
    var acks' := DebtsPaid(acks, slave, c.acked);
    DebtsPaidIs(acks, slave, c.acked);
    forall t | IsWait(c.store, t)
      ensures Balanced(c.store[t], acks')
    {
      assert IsWait(store, t) && Balanced(store[t], acks);
      var e := store[t];
      if e.client in c.acked {
        assert Owes(acks, slave, e.client);
        OwingMinusOne(acks, acks', e.client, e.slaves, slave);
      } else {
        OwingSame(acks, acks', e.client, e.slaves);
      }
    }
  }

  /** The registry between counting an ACK and removing the WAITs it completes. */
  function AfterCounting(r: Reg, slave: Client, c: Counting): Reg {
    r.(store := c.store, acks := DebtsPaid(r.acks, slave, c.acked))
  }

  lemma CountingConsistent(r: Reg, parked: seq<Ts>, slave: Client, offset: int)
    requires Consistent(r, parked) && Unmet(r.store) && slave in r.acks
    ensures var c := CountAll(r.store, r.waits, r.acks[slave], offset);
            Counted(r.store, r.waits, r.acks[slave], offset, c) && Consistent(AfterCounting(r, slave, c), parked)
  {
    var clients := r.acks[slave];
    assert forall c :: c in clients ==> Owes(r.acks, slave, c);
    CountAllIs(r.store, r.waits, clients, offset);
    var c := CountAll(r.store, r.waits, clients, offset);
    CountingKeepsLists(r.store, r.lists, parked, c.store, clients, offset);
    CountingBalances(r.store, r.waits, r.acks, slave, offset, c);
    DebtsPaidIs(r.acks, slave, c.acked);
    hide ListsAgree, Accounted, CountAll, DebtsPaid, DebtsTidy, NoDup;
    CountingKeepsOthers(r, slave, offset, c);
  }

  lemma CountingKeepsOthers(r: Reg, slave: Client, offset: int, c: Counting)
    requires StreamsAgree(r.store, r.streams) && WaitsAgree(r.store, r.waits) && AcksAgree(r.store, r.waits, r.acks)
    requires DeadlinesAgree(r.store, r.deadlines) && slave in r.acks
    requires Counted(r.store, r.waits, r.acks[slave], offset, c)
    ensures var acks := DebtsPaid(r.acks, slave, c.acked);
            && StreamsAgree(c.store, r.streams)
            && WaitsAgree(c.store, r.waits)
            && AcksAgree(c.store, r.waits, acks)
            && DeadlinesAgree(c.store, r.deadlines)
  {
    hide DebtsPaid, NoDup, Completes, CaughtUp, ExactReply;
    DebtsPaidIs(r.acks, slave, c.acked);
    assert StreamsAgree(c.store, r.streams) && DeadlinesAgree(c.store, r.deadlines);
    hide StreamsAgree, DeadlinesAgree;
  }

  lemma {:induction false} TimestampsAre(store: Requests, waits: map<Client, Ts>, clients: seq<Client>)
    requires WaitsAgree(store, waits) && NoDup(clients) && forall c :: c in clients ==> c in waits
    ensures var ts := TimestampsOf(waits, clients);
            && |ts| == |clients|
            && (forall i :: 0 <= i < |ts| ==> ts[i] == waits[clients[i]] && IsWait(store, ts[i]) && store[ts[i]].client == clients[i])
            && NoDup(ts)
            && (forall c :: c in clients ==> waits[c] in ts)
  {
    if clients != [] {
      TimestampsAre(store, waits, clients[..|clients| - 1]);
    }
  }

  lemma {:induction false} RepliesAddressed(store: Requests, waits: map<Client, Ts>, served: seq<Client>, replies: seq<Message>)
    requires |replies| == |served| && forall i :: 0 <= i < |served| ==> ExactReply(store, waits, served[i], replies[i])
    ensures Addressees(replies) == served
  {
    if served != [] {
      var n := |served| - 1;
      assert ExactReply(store, waits, served[n], replies[n]);
      RepliesAddressed(store, waits, served[..n], replies[..n]);
    }
  }

  lemma {:induction false} OwnersAre(asked: map<Ts, Client>, ts: seq<Ts>, clients: seq<Client>)
    requires |ts| == |clients| && forall i :: 0 <= i < |ts| ==> ts[i] in asked && asked[ts[i]] == clients[i]
    ensures Owners(asked, ts) == clients
  {
    if ts != [] {
      var n := |ts| - 1;
      OwnersAre(asked, ts[..n], clients[..n]);
      assert clients == clients[..n] + [clients[n]];
    }
  }

  /** Several requests are removed and answered at once. */
  lemma AnswersKept(h: Handler, store: Requests, served: seq<Client>, done: seq<Ts>, replies: seq<Message>)
    requires AnsweredOnce(h.reg.store, h.parked, h.asked, h.answers) && Addressees(h.queue) == Owners(h.asked, h.answers)
    requires store.Keys == h.reg.store.Keys && forall t :: t in store ==> store[t].client == h.reg.store[t].client
    requires NoDup(done) && |done| == |served| && Addressees(replies) == served
    requires forall i :: 0 <= i < |done| ==> done[i] in store && store[done[i]].client == served[i]
    ensures AnsweredOnce(store - Elements(done), h.parked, h.asked, h.answers + done)
    ensures Addressees(h.queue + replies) == Owners(h.asked, h.answers + done)
  {
    assert AnsweredOnce(store, h.parked, h.asked, h.answers);
    RemovedOnce(store, h.parked, h.asked, h.answers, done);
    AddresseesAppend(h.queue, replies);
    OwnersAppend(h.asked, h.answers, done);
    OwnersAre(h.asked, done, served);
  }

  lemma NoReplies(h: Handler, slave: Client, offset: int)
    requires slave !in h.reg.acks
    ensures AckOp(h, slave, offset).0 == h
  {
    var c := CountAll(h.reg.store, h.reg.waits, [], offset);
    assert TimestampsOf(h.reg.waits, c.served) == [];
    assert h.queue + [] == h.queue && h.answers + [] == h.answers;
  }

  /** After an ACK no parked WAIT has its count: those that got it are gone. */
  lemma AckUnmet(r: Reg, parked: seq<Ts>, slave: Client, offset: int, c: Counting)
    requires Consistent(r, parked) && Unmet(r.store) && slave in r.acks
    requires Counted(r.store, r.waits, r.acks[slave], offset, c)
    ensures Unmet(c.store - Elements(TimestampsOf(r.waits, c.served)))
  {
    hide ListsAgree, StreamsAgree, DeadlinesAgree, AcksAgree, Accounted;
    var done := TimestampsOf(r.waits, c.served);
    TimestampsAre(r.store, r.waits, c.served);
    hide TimestampsOf;
    forall t | IsWait(c.store - Elements(done), t)
      ensures c.store[t].actual < c.store[t].required
    {
      assert IsWait(r.store, t) && r.waits[r.store[t].client] == t;
      assert t !in done;
    }
  }

  /** The registry after an ACK. */
  lemma AckRegistry(r: Reg, parked: seq<Ts>, slave: Client, offset: int)
    requires Consistent(r, parked) && Unmet(r.store) && slave in r.acks
    ensures var c := CountAll(r.store, r.waits, r.acks[slave], offset);
            var done := TimestampsOf(r.waits, c.served);
            var r' := RemovedAll(AfterCounting(r, slave, c), done);
            && Counted(r.store, r.waits, r.acks[slave], offset, c)
            && Consistent(r', parked)
            && r'.store == c.store - Elements(done)
            && Unmet(r'.store)
            && r'.txns == r.txns && r'.watches == r.watches
  {
    CountingConsistent(r, parked, slave, offset);
    hide CountAll, Counted, TimestampsOf, RemovedAll, DebtsPaid;
    var c := CountAll(r.store, r.waits, r.acks[slave], offset);
    AckUnmet(r, parked, slave, offset, c);
    hide Consistent, Unmet;
    RemoveAllConsistent(AfterCounting(r, slave, c), parked, TimestampsOf(r.waits, c.served));
  }

  lemma AckAnswers(h: Handler, slave: Client, offset: int, c: Counting)
    requires AnsweredOnce(h.reg.store, h.parked, h.asked, h.answers) && Addressees(h.queue) == Owners(h.asked, h.answers)
    requires WaitsAgree(h.reg.store, h.reg.waits)
    requires slave in h.reg.acks && Counted(h.reg.store, h.reg.waits, h.reg.acks[slave], offset, c)
    ensures var done := TimestampsOf(h.reg.waits, c.served);
            && AnsweredOnce(c.store - Elements(done), h.parked, h.asked, h.answers + done)
            && Addressees(h.queue + c.replies) == Owners(h.asked, h.answers + done)
  {
    hide *;
    ServedTimestamps(h.reg.store, h.reg.waits, h.reg.acks[slave], offset, c);
    AnswersKept(h, c.store, c.served, TimestampsOf(h.reg.waits, c.served), c.replies);
  }

  lemma ServedTimestamps(store: Requests, waits: map<Client, Ts>, clients: seq<Client>, offset: int, c: Counting)
    requires WaitsAgree(store, waits) && Counted(store, waits, clients, offset, c)
    ensures var done := TimestampsOf(waits, c.served);
            && Addressees(c.replies) == c.served
            && NoDup(done) && |done| == |c.served|
            && (forall i :: 0 <= i < |done| ==> done[i] in c.store && c.store[done[i]].client == c.served[i])
    ensures c.store.Keys == store.Keys && forall t :: t in c.store ==> c.store[t].client == store[t].client
  {
    TimestampsAre(store, waits, c.served);
    RepliesAddressed(store, waits, c.served, c.replies);
    hide NoDup, TimestampsOf, Addressees, WaitsAgree, Completes, CaughtUp, ExactReply;
  }

  lemma AckValid(h: Handler, slave: Client, offset: int)
    requires Valid(h)
    ensures Valid(AckOp(h, slave, offset).0)
  {
    if slave !in h.reg.acks {
      NoReplies(h, slave, offset);
    } else {
      AckRegistry(h.reg, h.parked, slave, offset);
      AckAnswers(h, slave, offset, CountAll(h.reg.store, h.reg.waits, h.reg.acks[slave], offset));
      hide Consistent, Unmet, Counted, CountAll, TimestampsOf, RemovedAll, AnsweredOnce, Addressees, Owners, DebtsPaid;
    }
  }

  /**
   * What one ACK does: it answers exactly the WAITs it completes, each with exactly the count asked for,
   * and every other WAIT of a client the replica owed is one closer if the replica has caught up with it.
   */
  lemma AckServes(h: Handler, slave: Client, offset: int)
    requires Valid(h) && slave in h.reg.acks
    ensures var h' := AckOp(h, slave, offset).0;
            var c := CountAll(h.reg.store, h.reg.waits, h.reg.acks[slave], offset);
            && h'.queue == h.queue + c.replies
            && |c.replies| == |c.served|
            && (forall i :: 0 <= i < |c.served| ==> ExactReply(h.reg.store, h.reg.waits, c.served[i], c.replies[i]))
            && (forall x :: x in c.served <==> x in h.reg.acks[slave] && Completes(h.reg.store, h.reg.waits, x, offset))
            && (forall t :: IsWait(h.reg.store, t) && h.reg.store[t].client !in c.served ==>
                  t in h'.reg.store && h'.reg.store[t] == Acked(h.reg.store[t], h.reg.acks[slave], offset))
  {
    var r := h.reg;
    hide NoDup, CountAll, TimestampsOf, RemovedAll, DebtsPaid;
    AckRegistry(r, h.parked, slave, offset);
    var c := CountAll(r.store, r.waits, r.acks[slave], offset);
    OthersCounted(r, slave, offset, c);
    hide Consistent, Valid, ExactReply, Completes, WaitsAgree, Acked, Unmet;
  }

  /** A WAIT that is not completed stays, counted. */
  lemma OthersCounted(r: Reg, slave: Client, offset: int, c: Counting)
    requires WaitsAgree(r.store, r.waits) && slave in r.acks && Counted(r.store, r.waits, r.acks[slave], offset, c)
    requires NoDup(c.served) && forall x :: x in c.served ==> x in r.waits
    ensures forall t :: IsWait(r.store, t) && r.store[t].client !in c.served ==>
              && t in c.store - Elements(TimestampsOf(r.waits, c.served))
              && c.store[t] == Acked(r.store[t], r.acks[slave], offset)
  {
    TimestampsAre(r.store, r.waits, c.served);
    hide NoDup, ExactReply, Completes, TimestampsOf;
  }

  /** The ACK path's look-ups never fail: every client a replica owes has a WAIT in the store. */
  lemma AckLooksUp(h: Handler, slave: Client, client: Client)
    requires Valid(h) && Owes(h.reg.acks, slave, client)
    ensures client in h.reg.waits && IsWait(h.reg.store, h.reg.waits[client])
  {
  }
}
