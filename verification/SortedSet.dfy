/** src/commands/data_types.rs, `SortedSet`: a member map with a redundant index in (score, name) order. */
module SortedSets {
  import opened Base

  type Name = Bytes

  datatype Pair = Pair(score: real, name: Name)

  /** The two fields of a sorted set; `scores` lists the keys of the B-tree in ascending order. */
  datatype ZSet = ZSet(members: map<Name, real>, scores: seq<Pair>)

  // ----- The order of the index

  predicate NameLess(a: Name, b: Name) {
    b != [] && (a == [] || a[0] < b[0] || (a[0] == b[0] && NameLess(a[1..], b[1..])))
  }

  predicate Less(p: Pair, q: Pair) {
    p.score < q.score || (p.score == q.score && NameLess(p.name, q.name))
  }

  lemma {:induction false} NameOrder(a: Name, b: Name, c: Name)
    ensures !NameLess(a, a)
    ensures NameLess(a, b) || a == b || NameLess(b, a)
    ensures NameLess(a, b) && NameLess(b, c) ==> NameLess(a, c)
  {
    if a != [] && b != [] {
      NameOrder(a[1..], b[1..], if c == [] then [] else c[1..]);
      if a[0] == b[0] && a[1..] == b[1..] {
        assert a == [a[0]] + a[1..];
        assert b == [b[0]] + b[1..];
      }
    } else if a != [] {
      NameOrder(a[1..], a[1..], a[1..]);
    }
  }

  lemma PairOrder(p: Pair, q: Pair, r: Pair)
    ensures !Less(p, p)
    ensures Less(p, q) || p == q || Less(q, p)
    ensures Less(p, q) && Less(q, r) ==> Less(p, r)
  {
    NameOrder(p.name, q.name, r.name);
  }

  predicate Sorted(s: seq<Pair>) {
    forall i, j :: 0 <= i < j < |s| ==> Less(s[i], s[j])
  }

  lemma SortedNoDup(s: seq<Pair>)
    requires Sorted(s)
    ensures NoDup(s)
  {
    forall i, j | 0 <= i < j < |s|
      ensures s[i] != s[j]
    {
      PairOrder(s[i], s[j], s[j]);
    }
  }

  /** B-tree insertion of a key. */
  function Inserted(s: seq<Pair>, p: Pair): (r: seq<Pair>)
    ensures forall q :: q in r <==> q in s || q == p
  {
    if s == [] then [p]
    else if p == s[0] then s
    else if Less(p, s[0]) then [p] + s
    else [s[0]] + Inserted(s[1..], p)
  }

  lemma {:induction false} InsertedSorted(s: seq<Pair>, p: Pair)
    requires Sorted(s)
    ensures Sorted(Inserted(s, p))
  {
    if s == [] || p == s[0] {
    } else if Less(p, s[0]) {
      forall q | q in s
        ensures Less(p, q)
      {
        PairOrder(p, s[0], q);
      }
    } else {
      InsertedSorted(s[1..], p);
      PairOrder(p, s[0], p);
      forall q | q in Inserted(s[1..], p)
        ensures Less(s[0], q)
      {
      }
    }
  }

  lemma {:induction false} WithoutSorted(s: seq<Pair>, p: Pair)
    requires Sorted(s)
    ensures Sorted(Without(s, p))
  {
    if s != [] {
      WithoutSorted(s[..|s| - 1], p);
      var rest := Without(s[..|s| - 1], p);
      forall i | 0 <= i < |rest|
        ensures Less(rest[i], s[|s| - 1])
      {
        assert rest[i] in rest;
      }
    }
  }

  lemma HasElement(s: seq<Pair>)
    ensures s != [] ==> exists p :: p in s
  {
    if s != [] {
      assert s[0] in s;
    }
  }

  /** A sorted index is determined by its elements. */
  lemma {:induction false} SortedUnique(s: seq<Pair>, t: seq<Pair>)
    requires Sorted(s) && Sorted(t)
    requires forall p :: p in s <==> p in t
    ensures s == t
  {
    HasElement(s);
    HasElement(t);
    if s != [] && t != [] {
      assert s[0] in t && t[0] in s;
      PairOrder(s[0], t[0], s[0]);
      PairOrder(t[0], s[0], t[0]);
      assert s[0] == t[0];
      forall p
        ensures p in s[1..] <==> p in t[1..]
      {
        PairOrder(s[0], s[0], s[0]);
        assert s[0] !in s[1..] && t[0] !in t[1..];
        assert p in s <==> p == s[0] || p in s[1..];
        assert p in t <==> p == t[0] || p in t[1..];
      }
      SortedUnique(s[1..], t[1..]);
    }
  }

  // ----- The operations

  /** `SortedSet::add`: a known member loses the pair with the new score, not the stored one. */
  function Added(z: ZSet, score: real, name: Name): ZSet {
    var scores := if name in z.members then Without(z.scores, Pair(score, name)) else z.scores;
    ZSet(z.members[name := score], Inserted(scores, Pair(score, name)))
  }

  function Removed(z: ZSet, name: Name): ZSet {
    if name in z.members
    then ZSet(z.members - {name}, Without(z.scores, Pair(z.members[name], name)))
    else z
  }

  /** How many keys of the index precede `p` (`range(..p).count()`). */
  function CountBelow(s: seq<Pair>, p: Pair): nat {
    if s == [] then 0 else CountBelow(s[..|s| - 1], p) + (if Less(s[|s| - 1], p) then 1 else 0)
  }

  function RankByScore(z: ZSet, name: Name): Option<nat> {
    if name in z.members then Some(CountBelow(z.scores, Pair(z.members[name], name))) else None
  }

  function Names(s: seq<Pair>): (n: seq<Name>)
    ensures |n| == |s| && forall i :: 0 <= i < |s| ==> n[i] == s[i].name
  {
    seq(|s|, i requires 0 <= i < |s| => s[i].name)
  }

  /** `SortedSet::get_members`. */
  function GetMembers(z: ZSet, start: int, end: int): seq<Name> {
    var first := FromEnd(|z.scores|, start);
    var last := FromEnd(|z.scores|, end);
    if last < first then []
    else
      var skipped := z.scores[Min(first, |z.scores|)..];
      Names(skipped[..Min(last - first + 1, |skipped|)])
  }

  // ----- Agreement of map and index

  ghost predicate Agrees(z: ZSet) {
    && Sorted(z.scores)
    && forall p :: p in z.scores <==> p.name in z.members && z.members[p.name] == p.score
  }

  /** Adding keeps map and index in agreement exactly when it does not change a stored score. */
  lemma AddAgrees(z: ZSet, score: real, name: Name)
    requires Agrees(z)
    ensures Agrees(Added(z, score, name)) <==> (name in z.members ==> z.members[name] == score)
  {
    var z' := Added(z, score, name);
    WithoutSorted(z.scores, Pair(score, name));
    var scores := if name in z.members then Without(z.scores, Pair(score, name)) else z.scores;
    InsertedSorted(scores, Pair(score, name));
    if name in z.members && z.members[name] != score {
      assert Pair(z.members[name], name) in z'.scores;
    }
  }

  lemma RemoveAgrees(z: ZSet, name: Name)
    requires Agrees(z)
    ensures Agrees(Removed(z, name))
  {
    if name in z.members {
      WithoutSorted(z.scores, Pair(z.members[name], name));
    }
  }

  /** Removing a member just added gives back map and index alike. */
  lemma RemoveUndoesAdd(z: ZSet, score: real, name: Name)
    requires Agrees(z) && name !in z.members
    ensures Removed(Added(z, score, name), name) == z
  {
    AddAgrees(z, score, name);
    RemoveAgrees(Added(z, score, name), name);
    var z' := Removed(Added(z, score, name), name);
    assert z'.members == z.members;
    SortedUnique(z'.scores, z.scores);
  }

  datatype Op = AddOp(score: real, name: Name) | RemoveOp(name: Name)

  function Run(z: ZSet, ops: seq<Op>): ZSet {
    if ops == [] then z
    else
      var before := Run(z, ops[..|ops| - 1]);
      match ops[|ops| - 1]
      case AddOp(score, name) => Added(before, score, name)
      case RemoveOp(name) => Removed(before, name)
  }

  /** No operation of the run adds a present member with another score. */
  ghost predicate NoRescore(z: ZSet, ops: seq<Op>) {
    forall i :: 0 <= i < |ops| && ops[i].AddOp? ==>
      var before := Run(z, ops[..i]);
      ops[i].name in before.members ==> before.members[ops[i].name] == ops[i].score
  }

  lemma {:induction false} RunAgrees(ops: seq<Op>)
    requires NoRescore(ZSet(map[], []), ops)
    ensures Agrees(Run(ZSet(map[], []), ops))
  {
    if ops != [] {
      var n := |ops| - 1;
      forall i | 0 <= i < n
        ensures ops[..n][..i] == ops[..i]
      {
      }
      RunAgrees(ops[..n]);
      var before := Run(ZSet(map[], []), ops[..n]);
      match ops[n]
      case AddOp(score, name) => AddAgrees(before, score, name);
      case RemoveOp(name) => RemoveAgrees(before, name);
    }
  }

  /** What every run keeps, rescored members or not: each member's current pair is in the index. */
  ghost predicate Covers(z: ZSet) {
    Sorted(z.scores) && forall name :: name in z.members ==> Pair(z.members[name], name) in z.scores
  }

  lemma AddCovers(z: ZSet, score: real, name: Name)
    requires Covers(z)
    ensures Covers(Added(z, score, name))
  {
    WithoutSorted(z.scores, Pair(score, name));
    InsertedSorted(if name in z.members then Without(z.scores, Pair(score, name)) else z.scores, Pair(score, name));
  }

  lemma RemoveCovers(z: ZSet, name: Name)
    requires Covers(z)
    ensures Covers(Removed(z, name))
  {
    if name in z.members {
      WithoutSorted(z.scores, Pair(z.members[name], name));
    }
  }

  /** Adding leaves map and index alone exactly when the member is there with that score. */
  lemma AddLeaves(z: ZSet, score: real, name: Name)
    requires Covers(z)
    ensures Added(z, score, name) == z <==> name in z.members && z.members[name] == score
  {
    var z' := Added(z, score, name);
    if name in z.members && z.members[name] == score {
      WithoutSorted(z.scores, Pair(score, name));
      InsertedSorted(Without(z.scores, Pair(score, name)), Pair(score, name));
      SortedUnique(z'.scores, z.scores);
      assert z'.members == z.members;
    } else {
      assert z'.members[name] == score;
    }
  }

  /** Removing leaves them alone exactly when the member is not there. */
  lemma RemoveLeaves(z: ZSet, name: Name)
    ensures Removed(z, name) == z <==> name !in z.members
  {
    assert name !in Removed(z, name).members;
  }

  // ----- Ranks and slices

  lemma {:induction false} CountBelowSorted(s: seq<Pair>, p: Pair, i: nat)
    requires Sorted(s) && i <= |s|
    requires forall k :: 0 <= k < |s| ==> (Less(s[k], p) <==> k < i)
    ensures CountBelow(s, p) == i
  {
    if s != [] {
      CountBelowSorted(s[..|s| - 1], p, Min(i, |s| - 1));
    }
  }

  /** ZRANK undoes ZRANGE: the member at index `i` has rank `i`. */
  lemma RankOfIndex(z: ZSet, i: nat)
    requires Agrees(z) && i < |z.scores|
    ensures RankByScore(z, z.scores[i].name) == Some(i)
  {
    var p := z.scores[i];
    assert p in z.scores;
    forall k | 0 <= k < |z.scores|
      ensures Less(z.scores[k], p) <==> k < i
    {
      PairOrder(p, z.scores[k], p);
    }
    CountBelowSorted(z.scores, p, i);
  }

  /** Rank is the number of members that precede in (score, name) order. */
  lemma RankCountsMembers(z: ZSet, name: Name)
    requires Agrees(z) && name in z.members
    ensures RankByScore(z, name) == Some(|MembersBelow(z, name)|)
  {
    var p := Pair(z.members[name], name);
    SortedNoDup(z.scores);
    CountBelowIsCardinality(z.scores, p);
    var below := set q | q in z.scores && Less(q, p);
    var names := MembersBelow(z, name);
    assert below == set m | m in names :: Pair(z.members[m], m);
    SameSize(names, z.members, below);
  }

  ghost function MembersBelow(z: ZSet, name: Name): set<Name>
    requires name in z.members
  {
    set m | m in z.members && Less(Pair(z.members[m], m), Pair(z.members[name], name))
  }

  lemma {:induction false} CountBelowIsCardinality(s: seq<Pair>, p: Pair)
    requires NoDup(s)
    ensures CountBelow(s, p) == |set q | q in s && Less(q, p)|
  {
    if s != [] {
      var rest, last := s[..|s| - 1], s[|s| - 1];
      CountBelowIsCardinality(rest, p);
      assert last !in rest;
      var below := set q | q in rest && Less(q, p);
      assert forall q :: q in s <==> q in rest || q == last;
      hide Less, NoDup;
      assert (set q | q in s && Less(q, p)) == if Less(last, p) then below + {last} else below;
    }
  }

  lemma {:induction false} SameSize(names: set<Name>, members: map<Name, real>, pairs: set<Pair>)
    requires names <= members.Keys
    requires pairs == set m | m in names :: Pair(members[m], m)
    ensures |names| == |pairs|
  {
    if names != {} {
      var m :| m in names;
      SameSize(names - {m}, members, pairs - {Pair(members[m], m)});
    }
  }

  /** Adjacent ZRANGE slices concatenate to the whole slice. */
  lemma SlicesConcatenate(z: ZSet, start: nat, mid: nat, end: nat)
    requires start <= mid <= end + 1 && 0 < mid
    ensures GetMembers(z, start, mid - 1) + GetMembers(z, mid, end) == GetMembers(z, start, end)
  {
    var n := |z.scores|;
    assert GetMembers(z, start, end) == Names(z.scores[Min(start, n)..Min(end + 1, n)]);
    assert GetMembers(z, mid, end) == Names(z.scores[Min(mid, n)..Min(end + 1, n)]);
    assert GetMembers(z, start, mid - 1) == Names(z.scores[Min(start, n)..Min(mid, n)]);
  }

  /** ZRANGE 0 -1 lists every member exactly once. */
  lemma WholeRangeListsMembers(z: ZSet)
    requires Agrees(z)
    ensures NoDup(GetMembers(z, 0, -1))
    ensures forall name :: name in GetMembers(z, 0, -1) <==> name in z.members
  {
    var s := z.scores;
    assert s[0..][..|s|] == s;
    assert GetMembers(z, 0, -1) == Names(s);
    SortedNoDup(s);
    forall i, j | 0 <= i < j < |s|
      ensures s[i].name != s[j].name
    {
      assert s[i] in s && s[j] in s;
    }
    forall name
      ensures name in Names(s) <==> name in z.members
    {
      if name in z.members {
        assert Pair(z.members[name], name) in s;
        var i :| 0 <= i < |s| && s[i] == Pair(z.members[name], name);
        assert Names(s)[i] == name;
      }
      if name in Names(s) {
        var i :| 0 <= i < |s| && Names(s)[i] == name;
        assert s[i] in s;
      }
    }
  }

  // ----- The set that is updated in place

  class SortedSet {
    var members: map<Name, real>
    var scores: seq<Pair>

    function View(): ZSet
      reads this
    {
      ZSet(members, scores)
    }

    constructor ()
      ensures View() == ZSet(map[], [])
    {
      members, scores := map[], [];
    }

    method Add(score: real, name: Name) returns (added: nat)
      modifies this
      ensures View() == Added(old(View()), score, name)
      ensures added == if name in old(members) then 0 else 1
    {
      added := 1;
      if name in members {
        scores := Without(scores, Pair(score, name));
        added := 0;
      }
      members := members[name := score];
      scores := Inserted(scores, Pair(score, name));
    }

    method Remove(name: Name) returns (removed: nat)
      modifies this
      ensures View() == Removed(old(View()), name)
      ensures removed == if name in old(members) then 1 else 0
    {
      if name in members {
        var score := members[name];
        members := members - {name};
        scores := Without(scores, Pair(score, name));
        removed := 1;
      } else {
        removed := 0;
      }
    }
  }
}
