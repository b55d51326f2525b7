/** What a stream sweep does to blocked readers. */
module StreamSweeps {
  import opened Base
  import opened Streams
  import opened Commands
  import opened Registry
  import opened RegistryInvariant
  import opened Store
  import opened Handler
  import opened Blocking
  import opened Sweeps

  /** What a released reader is sent. */
  function PageBody(data: Data, e: RequestEntry): Body
    requires e.StreamReq?
  {
    var pages := ReadPages(data, e.cursors, e.count);
    if pages == [] then NullArray else Pages(pages)
  }

  predicate AllReaders(store: Requests, ts: seq<Ts>) {
    forall t :: t in ts ==> t in store && store[t].StreamReq?
  }

  function PageMessages(store: Requests, data: Data, ts: seq<Ts>): seq<Message>
    requires AllReaders(store, ts)
  {
    seq(|ts|, i requires 0 <= i < |ts| => Message(store[ts[i]].client, PageBody(data, store[ts[i]])))
  }

  lemma {:induction false} ChosenReadersAre(r: Reg, data: Data, order: seq<Ts>)
    requires NoDup(order)
    ensures NoDup(ChosenReaders(r, data, order)) && AllReaders(r.store, ChosenReaders(r, data, order))
    ensures forall t :: t in ChosenReaders(r, data, order) <==> t in order && HasItems(r, data, t)
  {
    if order != [] {
      ChosenReadersAre(r, data, order[..|order| - 1]);
      hide HasItems;
    }
  }

  lemma RemoveAbsent(r: Reg, t: Ts)
    requires t !in r.store
    ensures Registry.Removed(r, t) == r
  {
  }

  /** The task of a reader that is no longer parked only answers. */
  lemma StreamTaskAnswers(h: Handler, task: Task)
    requires task.entry.StreamReq? && task.t !in h.reg.store
    ensures RunStreamTask(h, task)
         == h.(queue := h.queue + [Message(task.entry.client, PageBody(h.data, task.entry))], answers := h.answers + [task.t])
  {
    RemoveAbsent(h.reg, task.t);
    hide Registry.Removed, ReadPages;
  }

  lemma LastStreamTask(h: Handler, store: Requests, ts: seq<Ts>)
    requires AllReaders(store, ts) && ts != []
    ensures var n := |ts| - 1;
            RunTasks(h, TasksOf(store, ts)) == RunStreamTask(RunTasks(h, TasksOf(store, ts[..n])), Task(ts[n], store[ts[n]]))
  {
    var n := |ts| - 1;
    assert ts[n] in ts;
    assert TasksOf(store, ts)[..n] == TasksOf(store, ts[..n]);
    hide RunStreamTask, RunListTask;
  }

  lemma {:induction false} StreamTasksRun(h: Handler, store: Requests, ts: seq<Ts>)
    requires AllReaders(store, ts) && forall t :: t in ts ==> t !in h.reg.store
    ensures RunTasks(h, TasksOf(store, ts)) == h.(queue := h.queue + PageMessages(store, h.data, ts), answers := h.answers + ts)
  {
    if ts == [] {
      assert h.queue + PageMessages(store, h.data, ts) == h.queue && h.answers + ts == h.answers;
    } else {
      var n := |ts| - 1;
      assert ts[n] in ts;
      StreamTasksRun(h, store, ts[..n]);
      LastStreamTask(h, store, ts);
      hide RunTasks, RunStreamTask, AllReaders, PageBody;
      StreamTaskAnswers(RunTasks(h, TasksOf(store, ts[..n])), Task(ts[n], store[ts[n]]));
      LastPage(store, h.data, ts);
      hide PageMessages;
      assert h.answers + ts == h.answers + ts[..n] + [ts[n]];
      Regroup(h.queue, PageMessages(store, h.data, ts[..n]), [Message(store[ts[n]].client, PageBody(h.data, store[ts[n]]))]);
    }
  }

  lemma LastPage(store: Requests, data: Data, ts: seq<Ts>)
    requires AllReaders(store, ts) && ts != []
    ensures var n := |ts| - 1;
            && ts[n] in ts && AllReaders(store, ts[..n])
            && PageMessages(store, data, ts)
            == PageMessages(store, data, ts[..n]) + [Message(store[ts[n]].client, PageBody(data, store[ts[n]]))]
  {
    hide PageBody;
    assert ts[|ts| - 1] in ts;
  }

  lemma LastAddressee(queue: seq<Message>, m: Message)
    ensures IsAnswer(m) ==> Addressees(queue + [m]) == Addressees(queue) + [m.to]
  {
  }

  lemma LastClient(store: Requests, ts: seq<Ts>)
    requires AllReaders(store, ts) && ts != []
    ensures var n := |ts| - 1;
            ts[n] in ts && AllReaders(store, ts[..n]) && ClientsOf(store, ts) == ClientsOf(store, ts[..n]) + [store[ts[n]].client]
  {
    assert ts[|ts| - 1] in ts;
  }

  lemma {:induction false} PagesAddressed(store: Requests, data: Data, ts: seq<Ts>)
    requires AllReaders(store, ts)
    ensures Addressees(PageMessages(store, data, ts)) == ClientsOf(store, ts)
  {
    if ts != [] {
      var n := |ts| - 1;
      PagesAddressed(store, data, ts[..n]);
      LastPage(store, data, ts);
      LastAddressee(PageMessages(store, data, ts[..n]), Message(store[ts[n]].client, PageBody(data, store[ts[n]])));
      LastClient(store, ts);
      hide PageMessages, AllReaders, PageBody, Addressees, ClientsOf;
    }
  }

  lemma ReadersReleased(h: Handler, order: seq<Ts>)
    requires Valid(h) && NoDup(order)
    ensures var ts := ChosenReaders(h.reg, h.data, order);
            && NoDup(ts) && AllReaders(h.reg.store, ts)
            && Released(h, ts) == h.(reg := RemovedAll(h.reg, ts), queue := h.queue + PageMessages(h.reg.store, h.data, ts),
                                     answers := h.answers + ts)
  {
    var ts := ChosenReaders(h.reg, h.data, order);
    ChosenReadersAre(h.reg, h.data, order);
    CollectedIs(h.reg, h.parked, ts);
    RemoveAllConsistent(h.reg, h.parked, ts);
    hide Valid, Consistent, Collected, RunTasks, ChosenReaders, NoDup, RemovedAll;
    StreamTasksRun(h.(reg := RemovedAll(h.reg, ts)), h.reg.store, ts);
  }

  lemma SweepStreamsValid(h: Handler, order: seq<Ts>)
    requires Valid(h) && NoDup(order)
    ensures Valid(SweepStreams(h, order))
  {
    if h.flagStream {
      var ts := ChosenReaders(h.reg, h.data, order);
      ReadersReleased(h, order);
      PagesAddressed(h.reg.store, h.data, ts);
      AddresseesAppend(h.queue, PageMessages(h.reg.store, h.data, ts));
      hide Valid, ChosenReaders, Released, RemovedAll, NoDup, Addressees;
      AnsweredAll(h, SweepStreams(h, order), ts);
    }
  }

  /**
   * A raised stream sweep releases exactly the readers with an entry past one of their cursors,
   * sends each its pages, and leaves the key space and every other request alone.
   */
  lemma SweepReleases(h: Handler, order: seq<Ts>)
    requires Valid(h) && Enumerates(order, h.reg.streams) && h.flagStream
    ensures var h' := SweepStreams(h, order);
            var ts := ChosenReaders(h.reg, h.data, order);
            && Valid(h')
            && h'.data == h.data
            && NoDup(ts) && AllReaders(h.reg.store, ts)
            && (forall t :: t in ts <==> HasItems(h.reg, h.data, t))
            && h'.reg.store == h.reg.store - Elements(ts)
            && h'.queue == h.queue + PageMessages(h.reg.store, h.data, ts)
  {
    SweepStreamsValid(h, order);
    ReadersReleased(h, order);
    ChosenReadersAre(h.reg, h.data, order);
    RemoveAllConsistent(h.reg, h.parked, ChosenReaders(h.reg, h.data, order));
    assert forall t :: HasItems(h.reg, h.data, t) ==> t in h.reg.streams;
  }

  // ----- What is in the pages

  /** The page of one cursor. */
  function PageOf(data: Data, c: Cursor, count: Option<nat>): (Key, seq<Entry>) {
    (c.key, Take(After(EntriesOf(data, c.key), c.id), count))
  }

  /** A cursor has a page exactly when something is past it, unless COUNT is 0. */
  lemma PageFilled(data: Data, c: Cursor, count: Option<nat>)
    requires count != Some(0)
    ensures PageOf(data, c, count).1 != [] <==> IsAvailable(data, c)
  {
  }

  /** The pages are those of the cursors with something to read, and no others. */
  lemma {:induction false} PagesAre(data: Data, cursors: seq<Cursor>, count: Option<nat>)
    ensures forall c :: c in cursors && PageOf(data, c, count).1 != [] ==> PageOf(data, c, count) in ReadPages(data, cursors, count)
    ensures forall p :: p in ReadPages(data, cursors, count) ==> p.1 != [] && exists c :: c in cursors && p == PageOf(data, c, count)
  {
    if cursors != [] {
      var n := |cursors| - 1;
      PagesAre(data, cursors[..n], count);
      forall p | p in ReadPages(data, cursors, count)
        ensures p.1 != [] && exists c :: c in cursors && p == PageOf(data, c, count)
      {
        if p !in ReadPages(data, cursors[..n], count) {
          assert p == PageOf(data, cursors[n], count);
          assert cursors[n] in cursors;
        } else {
          var c :| c in cursors[..n] && p == PageOf(data, c, count);
          assert c in cursors;
        }
      }
    }
  }

  /** A released reader with a COUNT other than 0 gets pages: the first COUNT entries past each cursor that has any. */
  lemma ReleasedGetsPages(r: Reg, data: Data, t: Ts)
    requires HasItems(r, data, t) && r.store[t].count != Some(0)
    ensures var e := r.store[t];
            && PageBody(data, e).Pages?
            && (forall c :: c in e.cursors && IsAvailable(data, c) ==> PageOf(data, c, e.count) in PageBody(data, e).pages)
            && (forall p :: p in PageBody(data, e).pages ==> p.1 != [] && exists c :: c in e.cursors && p == PageOf(data, c, e.count))
  {
    var e := r.store[t];
    PagesAre(data, e.cursors, e.count);
    forall c | c in e.cursors
      ensures PageOf(data, c, e.count).1 != [] <==> IsAvailable(data, c)
    {
      PageFilled(data, c, e.count);
    }
    var c :| c in e.cursors && IsAvailable(data, c);
    assert PageOf(data, c, e.count) in ReadPages(data, e.cursors, e.count);
  }

  /** With COUNT 0 a reader is released all the same, with nothing. */
  lemma {:induction false} CountZeroGetsNothing(data: Data, cursors: seq<Cursor>)
    ensures ReadPages(data, cursors, Some(0)) == []
  {
    if cursors != [] {
      CountZeroGetsNothing(data, cursors[..|cursors| - 1]);
    }
  }

  /**
   * XREAD parks exactly with BLOCK, on streams, and when nothing is past any of its cursors or its COUNT is 0: a reader
   * with COUNT 0 parks although there may be entries for it.
   */
  lemma ReaderParks(h: Handler, count: Option<nat>, blockMs: Option<nat>, cursors: seq<Cursor>, client: Client, env: Env)
    ensures XreadOp(h, count, blockMs, cursors, client, env).1 == Silent
       <==> && blockMs.Some?
            && (forall c :: c in cursors && c.key in h.data ==> h.data[c.key].value.Stream?)
            && (count == Some(0) || forall c :: c in Resolve(h.data, cursors) ==> !IsAvailable(h.data, c))
  {
    var resolved := Resolve(h.data, cursors);
    hide ReadPages, IsAvailable, Resolve, Park;
    if count == Some(0) {
      CountZeroGetsNothing(h.data, resolved);
    } else {
      NothingToRead(h.data, resolved, count);
    }
  }

  lemma NothingToRead(data: Data, cursors: seq<Cursor>, count: Option<nat>)
    requires count != Some(0)
    ensures ReadPages(data, cursors, count) == [] <==> forall c :: c in cursors ==> !IsAvailable(data, c)
  {
    PagesAre(data, cursors, count);
    hide ReadPages, PageOf, IsAvailable;
    forall c | c in cursors
      ensures PageOf(data, c, count).1 != [] <==> IsAvailable(data, c)
    {
      PageFilled(data, c, count);
    }
    var pages := ReadPages(data, cursors, count);
    if pages != [] {
      assert pages[0] in pages;
    }
  }
}
