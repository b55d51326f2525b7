/** Stream ids, XADD and XREAD on one stream: src/commands/cmd_handler.rs, `cmd_xadd` and `_extract_stream_entries`. */
module Streams {
  import opened Base

  datatype Id = Id(ms: nat, seqno: nat)

  datatype Entry = Entry(id: Id, fields: seq<Bytes>)

  /** The id argument of XADD: `5-7`, `5-*` or `*`. */
  datatype IdArg = IdArg(ms: Option<nat>, seqno: Option<nat>)

  predicate IdLess(a: Id, b: Id) {
    a.ms < b.ms || (a.ms == b.ms && a.seqno < b.seqno)
  }

  /** The B-tree of a stream, in key order. */
  predicate Sorted(s: seq<Entry>) {
    forall i, j :: 0 <= i < j < |s| ==> IdLess(s[i].id, s[j].id)
  }

  function Last(s: seq<Entry>): Option<Id> {
    if s == [] then None else Some(s[|s| - 1].id)
  }

  /** B-tree insertion: an entry with the same id is replaced. */
  function WithEntry(s: seq<Entry>, e: Entry): seq<Entry> {
    if s == [] then [e]
    else if IdLess(e.id, s[0].id) then [e] + s
    else if e.id == s[0].id then [e] + s[1..]
    else [s[0]] + WithEntry(s[1..], e)
  }

  /** The id XADD gives the new entry, if it accepts the argument; the sequence number wraps like a `u64`. */
  function NewId(last: Option<Id>, arg: IdArg, now: nat): Option<Id> {
    match (arg.ms, arg.seqno)
    case (Some(ms), Some(seqno)) =>
      if ms == 0 && seqno == 0 then None
      else if last == None || IdLess(last.value, Id(ms, seqno)) then Some(Id(ms, seqno))
      else None
    case (Some(ms), None) =>
      if last == None then Some(Id(ms, if ms == 0 then 1 else 0))
      else if ms == last.value.ms then Some(Id(ms, (last.value.seqno + 1) % TWO_64))
      else if ms > last.value.ms then Some(Id(ms, 0))
      else None
    case (None, None) => Some(Id(now, 0))
    case (None, Some(_)) => None
  }

  function Xadd(s: seq<Entry>, arg: IdArg, fields: seq<Bytes>, now: nat): Option<seq<Entry>> {
    match NewId(Last(s), arg, now)
    case None => None
    case Some(id) => Some(WithEntry(s, Entry(id, fields)))
  }

  /** `range((Excluded(id), Unbounded))`. */
  function After(s: seq<Entry>, id: Id): seq<Entry> {
    if s == [] then []
    else if IdLess(id, s[0].id) then s
    else After(s[1..], id)
  }

  function Take(s: seq<Entry>, count: Option<nat>): (r: seq<Entry>)
    ensures r <= s
  {
    match count
    case None => s
    case Some(n) => s[..Min(n, |s|)]
  }

  // ----- Ids grow

  /** The arguments that make XADD step back: a full sequence number, or a clock behind the last id. */
  predicate StepsBack(last: Id, arg: IdArg, now: nat) {
    match (arg.ms, arg.seqno)
    case (Some(ms), None) => ms == last.ms && last.seqno + 1 == TWO_64
    case (None, None) => !IdLess(last, Id(now, 0))
    case _ => false
  }

  /** An accepted id exceeds the last one exactly when neither of these happens. */
  lemma AcceptedIdGrows(last: Id, arg: IdArg, now: nat)
    requires NewId(Some(last), arg, now).Some? && last.seqno < TWO_64
    ensures IdLess(last, NewId(Some(last), arg, now).value) <==> !StepsBack(last, arg, now)
  {
  }

  lemma {:induction false} InsertedAtEnd(s: seq<Entry>, e: Entry)
    requires Sorted(s) && (s != [] ==> IdLess(s[|s| - 1].id, e.id))
    ensures WithEntry(s, e) == s + [e]
  {
    if |s| > 1 {
      assert IdLess(s[0].id, s[|s| - 1].id);
      InsertedAtEnd(s[1..], e);
    }
  }

  lemma {:induction false} InsertedSorted(s: seq<Entry>, e: Entry)
    requires Sorted(s)
    ensures Sorted(WithEntry(s, e))
    ensures forall x :: x in WithEntry(s, e) <==> x == e || (x in s && x.id != e.id)
  {
    if s != [] {
      if IdLess(s[0].id, e.id) {
        InsertedSorted(s[1..], e);
        var tail := WithEntry(s[1..], e);
        forall i | 0 <= i < |tail|
          ensures IdLess(s[0].id, tail[i].id)
        {
          assert tail[i] in tail;
        }
      }
      forall x | x in s[1..]
        ensures IdLess(s[0].id, x.id)
      {
      }
    }
  }

  // ----- Reading past a cursor

  lemma {:induction false} AfterIs(s: seq<Entry>, id: Id)
    requires Sorted(s)
    ensures Sorted(After(s, id))
    ensures forall e :: e in After(s, id) <==> e in s && IdLess(id, e.id)
  {
    if s != [] && !IdLess(id, s[0].id) {
      AfterIs(s[1..], id);
    }
  }

  /** Moving the cursor to the last entry of a page skips that page and nothing else. */
  lemma {:induction false} AfterPage(s: seq<Entry>, id: Id, n: nat)
    requires Sorted(s) && 0 < n <= |After(s, id)|
    ensures After(s, After(s, id)[n - 1].id) == After(s, id)[n..]
  {
    var page := After(s, id);
    AfterSuffix(s, id);
    var k := |s| - |page|;
    assert page == s[k..];
    AfterIndex(s, k + n - 1);
  }

  lemma {:induction false} AfterSuffix(s: seq<Entry>, id: Id)
    ensures |After(s, id)| <= |s| && After(s, id) == s[|s| - |After(s, id)|..]
  {
    if s != [] && !IdLess(id, s[0].id) {
      AfterSuffix(s[1..], id);
    }
  }

  lemma {:induction false} AfterIndex(s: seq<Entry>, k: nat)
    requires Sorted(s) && k < |s|
    ensures After(s, s[k].id) == s[k + 1..]
  {
    if k == 0 {
      if |s| > 1 {
        assert s[1..][0] == s[1];
      }
    } else {
      assert IdLess(s[0].id, s[k].id);
      AfterIndex(s[1..], k - 1);
    }
  }

  // ----- Paging with appends in between

  /** A reader's run over one stream: entries appended by anyone, pages read by it. */
  datatype Action = Append(arg: IdArg, fields: seq<Bytes>, now: nat) | ReadPage(count: Option<nat>)

  /** The stream, the reader's cursor and all it has been given. */
  datatype Paging = Paging(entries: seq<Entry>, cursor: Id, listed: seq<Entry>)

  function Act(p: Paging, a: Action): Paging {
    match a
    case Append(arg, fields, now) =>
      (match Xadd(p.entries, arg, fields, now)
       case None => p
       case Some(entries) => p.(entries := entries))
    case ReadPage(count) =>
      var page := Take(After(p.entries, p.cursor), count);
      if page == [] then p
      else p.(cursor := page[|page| - 1].id, listed := p.listed + page)
  }

  function Run(p: Paging, actions: seq<Action>): Paging {
    if actions == [] then p else Act(Run(p, actions[..|actions| - 1]), actions[|actions| - 1])
  }

  /** No accepted append of the run steps back. */
  ghost predicate Growing(p: Paging, actions: seq<Action>) {
    actions == [] ||
    var n := |actions| - 1;
    Growing(p, actions[..n]) && (actions[n].Append? ==> BoundedArg(actions[n]) && Grows(Run(p, actions[..n]).entries, actions[n]))
  }

  ghost predicate Grows(entries: seq<Entry>, a: Action)
    requires a.Append?
  {
    var id := NewId(Last(entries), a.arg, a.now);
    id.Some? && entries != [] ==> !StepsBack(Last(entries).value, a.arg, a.now)
  }

  predicate Bounded(s: seq<Entry>) {
    forall i :: 0 <= i < |s| ==> s[i].id.seqno < TWO_64
  }

  predicate BoundedArg(a: Action) {
    a.Append? && a.arg.seqno.Some? ==> a.arg.seqno.value < TWO_64
  }

  lemma AppendGrows(entries: seq<Entry>, a: Action)
    requires a.Append? && BoundedArg(a) && Sorted(entries) && Bounded(entries) && Grows(entries, a)
    ensures match NewId(Last(entries), a.arg, a.now)
            case None => true
            case Some(id) =>
              && WithEntry(entries, Entry(id, a.fields)) == entries + [Entry(id, a.fields)]
              && Bounded(entries + [Entry(id, a.fields)])
              && (forall e :: e in entries ==> IdLess(e.id, id))
  {
    match NewId(Last(entries), a.arg, a.now)
    case None =>
    case Some(id) =>
      if entries != [] {
        AcceptedIdGrows(Last(entries).value, a.arg, a.now);
      }
      InsertedAtEnd(entries, Entry(id, a.fields));
  }

  /** The cursor has not moved, or stands at an entry past the start. */
  ghost predicate CursorFits(p: Paging, start: Id) {
    || p.cursor == start
    || (IdLess(start, p.cursor) && exists e :: e in p.entries && e.id == p.cursor)
  }

  /**
   * What has been listed and what is still past the cursor are together all the entries past the start,
   * each once and in order.
   */
  ghost predicate Lossless(p: Paging, start: Id) {
    && Sorted(p.entries)
    && CursorFits(p, start)
    && p.listed + After(p.entries, p.cursor) == After(p.entries, start)
  }

  // ----- When an append is lost

  /** An accepted append whose id lies past the start but not past the cursor, and that is not there already. */
  predicate Loses(p: Paging, start: Id, a: Action)
    requires a.Append?
  {
    match NewId(Last(p.entries), a.arg, a.now)
    case None => false
    case Some(id) => IdLess(start, id) && !IdLess(p.cursor, id) && Entry(id, a.fields) !in p.entries
  }

  /** Entries in id order are determined by which they are. */
  lemma {:induction false} EntriesUnique(s: seq<Entry>, t: seq<Entry>)
    requires Sorted(s) && Sorted(t) && forall e :: e in s <==> e in t
    ensures s == t
  {
    HasEntry(s);
    HasEntry(t);
    if s != [] && t != [] {
      assert s[0] in t && t[0] in s;
      assert s[0] == t[0];
      forall e
        ensures e in s[1..] <==> e in t[1..]
      {
        assert e in s <==> e == s[0] || e in s[1..];
        assert e in t <==> e == t[0] || e in t[1..];
      }
      EntriesUnique(s[1..], t[1..]);
    }
  }

  lemma HasEntry(s: seq<Entry>)
    ensures s != [] ==> exists e :: e in s
  {
    if s != [] {
      assert s[0] in s;
    }
  }

  lemma SortedConcat(s: seq<Entry>, t: seq<Entry>, cursor: Id)
    requires Sorted(s) && Sorted(t)
    requires (forall e :: e in s ==> !IdLess(cursor, e.id)) && (forall e :: e in t ==> IdLess(cursor, e.id))
    ensures Sorted(s + t)
  {
    forall i, j | 0 <= i < j < |s + t|
      ensures IdLess((s + t)[i].id, (s + t)[j].id)
    {
      assert i < |s| ==> s[i] in s;
      assert j >= |s| ==> t[j - |s|] in t;
    }
  }

  /** What has been listed: the entries past the start and not past the cursor. */
  lemma ListedIs(p: Paging, start: Id)
    requires Lossless(p, start)
    ensures Sorted(p.listed)
    ensures forall e :: e in p.listed <==> e in p.entries && IdLess(start, e.id) && !IdLess(p.cursor, e.id)
  {
    var all, rest := After(p.entries, start), After(p.entries, p.cursor);
    AfterIs(p.entries, start);
    AfterIs(p.entries, p.cursor);
    hide After;
    assert p.listed == all[..|p.listed|] && rest == all[|p.listed|..];
    forall e
      ensures e in p.listed <==> e in all && e !in rest
    {
      PartOf(all, |p.listed|, e);
    }
  }

  lemma PartOf(s: seq<Entry>, n: nat, e: Entry)
    requires Sorted(s) && n <= |s|
    ensures e in s[..n] <==> e in s && e !in s[n..]
  {
    forall i, j | 0 <= i < n <= j < |s|
      ensures s[i] != s[j]
    {
      assert IdLess(s[i].id, s[j].id);
    }
    assert e in s <==> e in s[..n] || e in s[n..] by { assert s == s[..n] + s[n..]; }
  }

  /** An append keeps paging lossless exactly when it is not lost. */
  lemma AppendLossless(p: Paging, start: Id, a: Action)
    requires Lossless(p, start) && a.Append?
    ensures Lossless(Act(p, a), start) <==> !Loses(p, start, a)
  {
    var id := NewId(Last(p.entries), a.arg, a.now);
    if id.Some? {
      EntryLossless(p, start, Entry(id.value, a.fields));
    }
    hide Lossless, WithEntry, NewId;
  }

  lemma EntryLossless(p: Paging, start: Id, e: Entry)
    requires Lossless(p, start)
    ensures Lossless(p.(entries := WithEntry(p.entries, e)), start)
       <==> !(IdLess(start, e.id) && !IdLess(p.cursor, e.id) && e !in p.entries)
  {
    var entries := WithEntry(p.entries, e);
    InsertedSorted(p.entries, e);
    ListedIs(p, start);
    AfterIs(entries, start);
    AfterIs(entries, p.cursor);
    CursorStillFits(p, start, e);
    hide After, WithEntry;
    var rest, all := After(entries, p.cursor), After(entries, start);
    if IdLess(start, e.id) && !IdLess(p.cursor, e.id) && e !in p.entries {
      assert e in all && e !in p.listed + rest;
    } else {
      SortedConcat(p.listed, rest, p.cursor);
      forall x
        ensures x in p.listed + rest <==> x in all
      {
        SameId(p.entries, x, e);
      }
      EntriesUnique(p.listed + rest, all);
    }
  }

  lemma SameId(s: seq<Entry>, x: Entry, e: Entry)
    requires Sorted(s)
    ensures x in s && e in s && x.id == e.id ==> x == e
  {
  }

  lemma CursorStillFits(p: Paging, start: Id, e: Entry)
    requires CursorFits(p, start) && Sorted(p.entries)
    ensures CursorFits(p.(entries := WithEntry(p.entries, e)), start)
    ensures p.cursor == start || IdLess(start, p.cursor)
  {
    InsertedSorted(p.entries, e);
    hide WithEntry, Sorted;
    if p.cursor != start {
      var x :| x in p.entries && x.id == p.cursor;
      assert (if e.id == p.cursor then e else x) in WithEntry(p.entries, e);
    }
  }

  // ----- Reading

  lemma LastOfPage(p: Paging, count: Option<nat>, start: Id)
    requires Sorted(p.entries) && CursorFits(p, start)
    ensures var page := Take(After(p.entries, p.cursor), count);
            page != [] ==> CursorFits(Act(p, ReadPage(count)), start)
  {
    var page := Take(After(p.entries, p.cursor), count);
    if page != [] {
      AfterIs(p.entries, p.cursor);
      assert page[|page| - 1] in After(p.entries, p.cursor);
      hide After, Sorted;
    }
  }

  lemma ReadLossless(p: Paging, start: Id, count: Option<nat>)
    requires Lossless(p, start)
    ensures Lossless(Act(p, ReadPage(count)), start)
  {
    hide After, Sorted, CursorFits;
    var rest := After(p.entries, p.cursor);
    var page := Take(rest, count);
    if page != [] {
      AfterPage(p.entries, p.cursor, |page|);
      LastOfPage(p, count, start);
      assert page + rest[|page|..] == rest;
      Regroup(p.listed, page, rest[|page|..]);
    }
  }

  // ----- Runs

  /** No append of the run is lost. */
  ghost predicate NothingLost(p: Paging, start: Id, actions: seq<Action>) {
    actions == [] ||
    var n := |actions| - 1;
    NothingLost(p, start, actions[..n]) && (actions[n].Append? ==> !Loses(Run(p, actions[..n]), start, actions[n]))
  }

  /** Paging is lossless after the run and all along it. */
  ghost predicate LosslessThroughout(p: Paging, start: Id, actions: seq<Action>) {
    Lossless(Run(p, actions), start) && (actions == [] || LosslessThroughout(p, start, actions[..|actions| - 1]))
  }

  function NewReader(entries: seq<Entry>, start: Id): Paging {
    Paging(entries, start, [])
  }

  /** XREAD paging, with any counts, is lossless all through a run exactly when no append of the run is lost. */
  lemma {:induction false} PagingIsLossless(entries: seq<Entry>, start: Id, actions: seq<Action>)
    requires Sorted(entries)
    ensures LosslessThroughout(NewReader(entries, start), start, actions) <==> NothingLost(NewReader(entries, start), start, actions)
  {
    var p0 := NewReader(entries, start);
    if actions == [] {
      assert [] + After(entries, start) == After(entries, start);
    } else {
      var n := |actions| - 1;
      PagingIsLossless(entries, start, actions[..n]);
      hide Lossless, Loses, Act;
      var p := Run(p0, actions[..n]);
      if Lossless(p, start) {
        match actions[n]
        case Append(_, _, _) => AppendLossless(p, start, actions[n]);
        case ReadPage(count) => ReadLossless(p, start, count);
      }
    }
  }

  // ----- Appends that grow are not lost

  lemma GrowthIsKept(p: Paging, start: Id, a: Action)
    requires a.Append? && BoundedArg(a) && Sorted(p.entries) && Bounded(p.entries) && CursorFits(p, start) && Grows(p.entries, a)
    ensures !Loses(p, start, a) && p.entries <= Act(p, a).entries && Bounded(Act(p, a).entries)
  {
    AppendGrows(p.entries, a);
    hide NewId, WithEntry, Grows, Bounded, Sorted;
  }

  /** In every run whose appends do not step back nothing is lost, and entries are only ever appended. */
  lemma {:induction false} GrowingIsLossless(entries: seq<Entry>, start: Id, actions: seq<Action>)
    requires Sorted(entries) && Bounded(entries) && Growing(NewReader(entries, start), actions)
    ensures NothingLost(NewReader(entries, start), start, actions)
    ensures var p := Run(NewReader(entries, start), actions);
            entries <= p.entries && Bounded(p.entries) && Lossless(p, start)
  {
    hide Loses, Bounded, Sorted, After, Grows, BoundedArg;
    PagingIsLossless(entries, start, actions);
    if actions != [] {
      var n := |actions| - 1;
      GrowingIsLossless(entries, start, actions[..n]);
      if actions[n].Append? {
        GrowthIsKept(Run(NewReader(entries, start), actions[..n]), start, actions[n]);
      }
    }
  }

  // ----- Progress

  function Reads(count: nat, k: nat): seq<Action> {
    if k == 0 then [] else Reads(count, k - 1) + [ReadPage(Some(count))]
  }

  /** The most that k reads list: k times COUNT. */
  function Capacity(count: nat, k: nat): nat {
    if k == 0 then 0 else Capacity(count, k - 1) + count
  }

  lemma {:induction false} CapacityIs(count: nat, k: nat)
    ensures Capacity(count, k) == count * k
  {
    if k > 0 {
      CapacityIs(count, k - 1);
    }
  }

  /** One read leaves COUNT entries less. */
  lemma ReadLeaves(p: Paging, count: nat)
    requires Sorted(p.entries)
    ensures var rest := After(p.entries, p.cursor);
            var p' := Act(p, ReadPage(Some(count)));
            p'.entries == p.entries && After(p'.entries, p'.cursor) == rest[Min(count, |rest|)..]
  {
    var rest := After(p.entries, p.cursor);
    if rest != [] && count > 0 {
      AfterPage(p.entries, p.cursor, Min(count, |rest|));
    }
  }

  /** So k reads leave k times COUNT less, down to none. */
  lemma {:induction false} ReadsLeave(p: Paging, count: nat, k: nat)
    requires Sorted(p.entries)
    ensures var rest := After(p.entries, p.cursor);
            var p' := Run(p, Reads(count, k));
            p'.entries == p.entries && After(p'.entries, p'.cursor) == rest[Min(Capacity(count, k), |rest|)..]
  {
    hide *;
    var rest := After(p.entries, p.cursor);
    if k == 0 {
      NoRead(p, count);
      OneReadMore(rest, 0, 0);
    } else {
      var taken := Capacity(count, k - 1);
      assert taken + count == Capacity(count, k) by { OneMore(count, k); }
      ReadsLeave(p, count, k - 1);
      LastRead(p, count, k);
      ReadLeaves(Run(p, Reads(count, k - 1)), count);
      OneReadMore(rest, count, taken);
    }
  }

  lemma OneMore(count: nat, k: nat)
    requires k > 0
    ensures Capacity(count, k - 1) + count == Capacity(count, k)
  {
  }

  lemma NoRead(p: Paging, count: nat)
    ensures Run(p, Reads(count, 0)) == p
    ensures var rest := After(p.entries, p.cursor); rest[Min(Capacity(count, 0), |rest|)..] == rest
  {
  }

  lemma OneReadMore(rest: seq<Entry>, count: nat, taken: nat)
    ensures var left := rest[Min(taken, |rest|)..];
            left[Min(count, |left|)..] == rest[Min(taken + count, |rest|)..]
  {
  }

  lemma LastRead(p: Paging, count: nat, k: nat)
    requires k > 0
    ensures Run(p, Reads(count, k)) == Act(Run(p, Reads(count, k - 1)), ReadPage(Some(count)))
  {
    assert Reads(count, k)[..|Reads(count, k - 1)|] == Reads(count, k - 1);
    hide Act;
  }

  lemma {:induction false} ReadsLossless(p: Paging, start: Id, count: nat, k: nat)
    requires Lossless(p, start)
    ensures Lossless(Run(p, Reads(count, k)), start)
  {
    hide Lossless, Act;
    if k == 0 {
      NoRead(p, count);
    } else {
      hide Run, Reads;
      ReadsLossless(p, start, count, k - 1);
      LastRead(p, count, k);
      ReadLossless(Run(p, Reads(count, k - 1)), start, Some(count));
    }
  }

  /**
   * After any run in which nothing was lost, k reads with COUNT n list every entry past the start, each once and in id
   * order, exactly when k times n covers what was still past the cursor.
   */
  lemma EnoughReadsListAll(entries: seq<Entry>, start: Id, actions: seq<Action>, count: nat, k: nat)
    requires Sorted(entries) && NothingLost(NewReader(entries, start), start, actions)
    ensures var p := Run(NewReader(entries, start), actions);
            var q := Run(p, Reads(count, k));
            && q.entries == p.entries
            && Sorted(q.listed)
            && ((forall e :: e in q.listed <==> e in p.entries && IdLess(start, e.id))
            <==> |After(p.entries, p.cursor)| <= Capacity(count, k))
  {
    PagingIsLossless(entries, start, actions);
    assert actions[..|actions|] == actions;
    var p := Run(NewReader(entries, start), actions);
    assert Lossless(p, start);
    var q := Run(p, Reads(count, k));
    ReadsLossless(p, start, count, k);
    ReadsLeave(p, count, k);
    ListedIs(q, start);
    AfterIs(q.entries, q.cursor);
    hide After, Run, Reads, Sorted, NothingLost, LosslessThroughout;
    var rest := After(p.entries, p.cursor);
    if |rest| > Capacity(count, k) {
      assert After(q.entries, q.cursor)[0] in After(q.entries, q.cursor);
      CursorPastStart(q, start, After(q.entries, q.cursor)[0]);
    }
  }

  lemma CursorPastStart(p: Paging, start: Id, e: Entry)
    requires CursorFits(p, start) && IdLess(p.cursor, e.id)
    ensures IdLess(start, e.id)
  {
  }
}
