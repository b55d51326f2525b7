/** Timers: firing over and over drains the deadline tree in order; and when a sweep does not run. */
module Expiry {
  import opened Base
  import opened Commands
  import opened Registry
  import opened RegistryInvariant
  import opened Handler
  import opened Blocking
  import opened Sweeps
  import opened StreamSweeps
  import opened Runs

  ghost predicate Least(d: nat, all: set<nat>) {
    d in all && forall x :: x in all ==> d <= x
  }

  lemma {:induction false} LeastExists(all: set<nat>) returns (least: nat)
    requires all != {}
    ensures Least(least, all)
  {
    least :| least in all;
    var rest := all - {least};
    assert all == rest + {least};
    if rest != {} {
      var other := LeastExists(rest);
      if other < least {
        least := other;
      }
    }
  }

  /** `first_key_value` of the deadline tree. */
  ghost function Nearest(r: Reg): (d: nat)
    requires r.deadlines != map[]
    ensures IsNearest(r, d)
  {
    assert exists d :: Least(d, r.deadlines.Keys) by { var d := LeastExists(r.deadlines.Keys); }
    var d :| Least(d, r.deadlines.Keys);
    d
  }

  lemma ExpireShrinks(h: Handler, d: nat)
    requires Valid(h) && d in h.reg.deadlines
    ensures Expire(h, d).reg.deadlines == h.reg.deadlines - {d}
    ensures |Expire(h, d).reg.deadlines| == |h.reg.deadlines| - 1
  {
    assert h.reg.store[h.reg.deadlines[d]].deadline == d;
    var left := h.reg.deadlines - {d};
    assert left.Keys == h.reg.deadlines.Keys - {d};
    assert |left| == |left.Keys| && |h.reg.deadlines| == |h.reg.deadlines.Keys|;
    hide ListsWithout, AcksWithout, Consistent;
  }

  /** Fires the timer until the tree is empty: the final state and the deadlines fired. */
  ghost function FireAll(h: Handler): (r: (Handler, seq<nat>))
    requires Valid(h)
    ensures Valid(r.0)
    decreases |h.reg.deadlines|
  {
    if h.reg.deadlines == map[] then (h, [])
    else
      var d := Nearest(h.reg);
      ExpireValid(h, d);
      ExpireShrinks(h, d);
      var (last, fired) := FireAll(Expire(h, d));
      (last, [d] + fired)
  }

  predicate Ascending(s: seq<nat>) {
    forall i, j :: 0 <= i < j < |s| ==> s[i] < s[j]
  }

  /** Firing drains the tree in increasing order, once per timed request, and leaves no timed request parked. */
  lemma {:induction false} FireAllDrains(h: Handler)
    requires Valid(h)
    ensures var (last, fired) := FireAll(h);
            && Ascending(fired)
            && |fired| == |h.reg.deadlines|
            && (forall d :: d in fired <==> d in h.reg.deadlines)
            && last.reg.deadlines == map[]
            && (forall t :: t in last.reg.store ==> last.reg.store[t].deadline == 0)
    decreases |h.reg.deadlines|
  {
    if h.reg.deadlines == map[] {
      assert forall t :: t in h.reg.store ==> h.reg.store[t].deadline !in h.reg.deadlines;
    } else {
      var d := Nearest(h.reg);
      ExpireValid(h, d);
      ExpireShrinks(h, d);
      FireAllDrains(Expire(h, d));
      hide Valid, Expire, FireAll;
      FirstFired(h.reg.deadlines, d, FireAll(Expire(h, d)).1);
    }
  }

  lemma FirstFired(deadlines: map<nat, Ts>, d: nat, later: seq<nat>)
    requires d in deadlines && forall x :: x in deadlines ==> d <= x
    requires Ascending(later) && forall x :: x in later <==> x in deadlines - {d}
    ensures Ascending([d] + later) && forall x :: x in [d] + later <==> x in deadlines
  {
    assert forall i :: 0 <= i < |later| ==> later[i] in deadlines - {d};
  }

  lemma SweepAnswers(h: Handler, order: seq<Key>)
    requires Valid(h) && Enumerates(order, h.reg.lists.Keys) && h.flagList
    ensures SweepLists(h, order).answers == h.answers + ChosenWaiters(h.reg, h.data, order)
  {
    var ts := ChosenWaiters(h.reg, h.data, order);
    hide NoDup, DealtOnKey, OnKey, SameButItems;
    SweepDeals(h, order);
    TasksAnswer(h.reg.store, ts);
    hide Valid, ChosenWaiters, Released;
  }

  lemma ServedOnKey(h: Handler, order: seq<Key>, key: Key)
    requires Valid(h) && Enumerates(order, h.reg.lists.Keys)
    ensures |OnKey(h.reg.store, ChosenWaiters(h.reg, h.data, order), key)| == Matches(h, key)
  {
    hide NoDup, Dealt, OnKey;
    SweepDeals(h, order);
    FirstWaitersAre(h, key);
    hide Valid, ChosenWaiters, FirstWaiters;
  }

  lemma OnSomeKey(store: Requests, ts: seq<Ts>)
    requires NoDup(ts) && ts != [] && ts[0] in store && store[ts[0]].ListReq?
    ensures OnKey(store, ts, store[ts[0]].key) != []
  {
    QueueMembers(store, ts, store[ts[0]].key);
    hide QueueOf;
    assert ts[0] in OnKey(store, ts, store[ts[0]].key);
  }

  /** A sweep serves somebody exactly when its flag is up and some list has both a waiter and an item. */
  lemma SweepServes(h: Handler, order: seq<Key>)
    requires Valid(h) && Enumerates(order, h.reg.lists.Keys)
    ensures SweepLists(h, order).answers == h.answers <==> !h.flagList || forall key :: Matches(h, key) == 0
  {
    if h.flagList {
      var ts := ChosenWaiters(h.reg, h.data, order);
      SweepAnswers(h, order);
      ChosenAreWaiters(h, order);
      if ts != [] {
        OnSomeKey(h.reg.store, ts);
        ServedOnKey(h, order, h.reg.store[ts[0]].key);
        assert |h.answers + ts| > |h.answers|;
      } else {
        forall key
          ensures Matches(h, key) == 0
        {
          ServedOnKey(h, order, key);
        }
        assert h.answers + [] == h.answers;
      }
      hide Valid, ChosenWaiters, SweepLists, Matches;
    }
  }

  lemma ChosenAreWaiters(h: Handler, order: seq<Key>)
    requires Valid(h) && Enumerates(order, h.reg.lists.Keys)
    ensures NoDup(ChosenWaiters(h.reg, h.data, order))
    ensures forall t :: t in ChosenWaiters(h.reg, h.data, order) ==> t in h.reg.store && h.reg.store[t].ListReq?
  {
    ChosenWaitersAre(h.reg, h.parked, h.data, order);
  }

  lemma StreamSweepAnswers(h: Handler, order: seq<Ts>)
    requires Valid(h) && NoDup(order) && h.flagStream
    ensures SweepStreams(h, order).answers == h.answers + ChosenReaders(h.reg, h.data, order)
  {
    ReadersReleased(h, order);
    hide Valid, ChosenReaders, Released, RemovedAll, NoDup;
  }

  /** A stream sweep serves somebody exactly when its flag is up and some reader has something to read. */
  lemma StreamSweepServes(h: Handler, order: seq<Ts>)
    requires Valid(h) && Enumerates(order, h.reg.streams)
    ensures SweepStreams(h, order).answers == h.answers <==> !h.flagStream || forall t :: !HasItems(h.reg, h.data, t)
  {
    if h.flagStream {
      hide NoDup;
      var ts := ChosenReaders(h.reg, h.data, order);
      StreamSweepAnswers(h, order);
      SweepReleases(h, order);
      hide Valid, ChosenReaders, SweepStreams, HasItems, Enumerates, AllReaders;
      if ts != [] {
        assert ts[0] in ts && |h.answers + ts| > |h.answers|;
      } else {
        assert h.answers + [] == h.answers;
      }
    }
  }

  lemma ReplySetsFlags(h: Handler, cmd: Cmd, buf: Bytes, client: Client, env: Env)
    requires !cmd.Exec? && Execute(h, cmd, buf, client, env).1.Reply?
    ensures var h' := Execute(h, cmd, buf, client, env).0; h'.flagList == IsFlagList(cmd) && h'.flagStream == IsFlagStream(cmd)
  {
    ExecuteParts(h, cmd, buf, client, env);
    SettleKeeps(Dispatch(Marked(h, cmd), cmd, client, env).0, cmd, buf, env);
    hide Dispatch, Dirtied, Execute, Settle, IsFlagList, IsFlagStream;
  }

  /**
   * Every reply overwrites both sweep flags. In the list sweep of that loop nobody is served exactly when the command
   * was no push, or no list has both a waiter and an item; in the stream sweep, when it was no XADD, or no reader has
   * something to read. A push or an XADD earlier in the loop no longer counts.
   */
  lemma ReplyLowersFlag(h: Handler, cmd: Cmd, buf: Bytes, client: Client, env: Env, keys: seq<Key>, readers: seq<Ts>)
    requires Valid(h) && CmdEnabled(h, cmd, client, env)
    requires !cmd.Exec? && Execute(h, cmd, buf, client, env).1.Reply?
    requires Enumerates(keys, Execute(h, cmd, buf, client, env).0.reg.lists.Keys)
    requires Enumerates(readers, Execute(h, cmd, buf, client, env).0.reg.streams)
    ensures var h' := Execute(h, cmd, buf, client, env).0;
            && (SweepLists(h', keys).answers == h'.answers <==> !IsFlagList(cmd) || forall key :: Matches(h', key) == 0)
            && (SweepStreams(h', readers).answers == h'.answers <==>
                  !IsFlagStream(cmd) || forall t :: !HasItems(h'.reg, h'.data, t))
  {
    var h' := Execute(h, cmd, buf, client, env).0;
    ExecuteValid(h, cmd, buf, client, env);
    ReplySetsFlags(h, cmd, buf, client, env);
    hide IsFlagList, IsFlagStream, CmdEnabled, Execute, Valid, SweepLists, SweepStreams, HasItems, Matches;
    SweepServes(h', keys);
    StreamSweepServes(h', readers);
  }
}
