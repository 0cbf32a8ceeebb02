/** The comparators the lists are sorted with, and one stable sort of object
    IDs by the records they name. Core Data's sort descriptors and Swift's
    `sort(by:)` promise only that the result is sorted and a permutation. The
    stable sort here picks insertion order for equal keys, which they leave
    unspecified; `Sort`'s own contract promises only sorted and a
    permutation, and no lemma depends on the tie-break. */
module TaskOrdering {
  import opened TaskRecords

  datatype Key = Key(done: int, rank: int, index: int)

  predicate KeyLt(a: Key, b: Key) {
    a.done < b.done ||
    (a.done == b.done && (a.rank < b.rank || (a.rank == b.rank && a.index < b.index)))
  }

  datatype Comparator =
    | DoneLast       // "Done" last, then priorityRank, then sortIndex
    | RankThenIndex  // priorityRank, then sortIndex
    | IndexOnly      // sortIndex alone

  function KeyOf(c: Comparator, t: Task): Key {
    match c
    case DoneLast => Key(if IsDone(t) then 1 else 0, t.priorityRank, t.sortIndex)
    case RankThenIndex => Key(0, t.priorityRank, t.sortIndex)
    case IndexOnly => Key(0, 0, t.sortIndex)
  }

  /** The `areInIncreasingOrder` closure each comparator stands for. */
  predicate Precedes(c: Comparator, a: Task, b: Task) {
    KeyLt(KeyOf(c, a), KeyOf(c, b))
  }

  /** No element is strictly preceded by a later one. */
  predicate SortedBy(c: Comparator, recs: map<ObjectId, Task>, s: seq<ObjectId>)
    requires AllIn(s, recs)
  {
    forall i, j :: 0 <= i < j < |s| ==> !Precedes(c, recs[s[j]], recs[s[i]])
  }

  /** Insert `x` before the first element that does not precede it. */
  function Insert(c: Comparator, recs: map<ObjectId, Task>, x: ObjectId, s: seq<ObjectId>): (r: seq<ObjectId>)
    requires x in recs && AllIn(s, recs) && SortedBy(c, recs, s)
    ensures multiset(r) == multiset(s) + multiset{x}
    ensures AllIn(r, recs) && SortedBy(c, recs, r)
  {
    if s == [] then [x]
    else if !Precedes(c, recs[s[0]], recs[x]) then
      SortedCons(c, recs, x, s);
      [x] + s
    else
      assert s == [s[0]] + s[1..];
      var rest := Insert(c, recs, x, s[1..]);
      InsertHead(c, recs, x, s, rest);
      [s[0]] + rest
  }

  lemma SortedCons(c: Comparator, recs: map<ObjectId, Task>, y: ObjectId, r: seq<ObjectId>)
    requires y in recs && AllIn(r, recs) && SortedBy(c, recs, r)
    requires forall z :: z in r ==> !Precedes(c, recs[z], recs[y])
    ensures AllIn([y] + r, recs) && SortedBy(c, recs, [y] + r)
  {
    var t := [y] + r;
    forall i, j | 0 <= i < j < |t| ensures !Precedes(c, recs[t[j]], recs[t[i]]) {
      if i > 0 {
        assert t[i] == r[i - 1] && t[j] == r[j - 1];
      } else {
        assert t[j] in r;
      }
    }
  }

  lemma InsertHead(c: Comparator, recs: map<ObjectId, Task>, x: ObjectId, s: seq<ObjectId>, rest: seq<ObjectId>)
    requires x in recs && AllIn(s, recs) && SortedBy(c, recs, s) && s != []
    requires Precedes(c, recs[s[0]], recs[x])
    requires multiset(rest) == multiset(s[1..]) + multiset{x}
    requires AllIn(rest, recs) && SortedBy(c, recs, rest)
    ensures AllIn([s[0]] + rest, recs) && SortedBy(c, recs, [s[0]] + rest)
  {
    forall z | z in rest ensures !Precedes(c, recs[z], recs[s[0]]) {
      assert z in multiset(rest);
      if z != x {
        assert z in multiset(s[1..]);
        var k :| 0 <= k < |s[1..]| && s[1..][k] == z;
        assert s[k + 1] == z;
      }
    }
    SortedCons(c, recs, s[0], rest);
  }

  /** `sorted(by:)` with the comparator's closure. */
  function Sort(c: Comparator, recs: map<ObjectId, Task>, s: seq<ObjectId>): (r: seq<ObjectId>)
    requires AllIn(s, recs)
    ensures multiset(r) == multiset(s)
    ensures AllIn(r, recs) && SortedBy(c, recs, r)
  {
    if s == [] then []
    else
      assert s == [s[0]] + s[1..];
      Insert(c, recs, s[0], Sort(c, recs, s[1..]))
  }

  /** A permutation of a sequence without repeats has none either. */
  lemma PermutationDistinct(s: seq<ObjectId>, r: seq<ObjectId>)
    requires multiset(r) == multiset(s) && Distinct(s)
    ensures Distinct(r)
  {
    if !Distinct(r) {
      var i, j :| 0 <= i < j < |r| && r[i] == r[j];
      var x := r[i];
      assert multiset(r)[x] >= 2 by {
        assert r == r[..i] + [x] + r[i + 1..j] + [x] + r[j + 1..];
      }
      CountAtMostOne(s, x);
      assert false;
    }
  }

  lemma {:induction false} CountAtMostOne(s: seq<ObjectId>, x: ObjectId)
    requires Distinct(s)
    ensures multiset(s)[x] <= 1
  {
    if s != [] {
      assert s == [s[0]] + s[1..];
      CountAtMostOne(s[1..], x);
      if s[0] == x {
        assert x !in s[1..];
      }
    }
  }

  /** What a list sorted with the `DoneLast` comparator looks like: every task
      that is not "Done" comes before every "Done" task, and within each of the
      two groups (priorityRank, sortIndex) never decreases. */
  lemma DoneLastMeans(recs: map<ObjectId, Task>, s: seq<ObjectId>, i: int, j: int)
    requires AllIn(s, recs) && SortedBy(DoneLast, recs, s)
    requires 0 <= i < j < |s|
    ensures IsDone(recs[s[i]]) ==> IsDone(recs[s[j]])
    ensures IsDone(recs[s[i]]) == IsDone(recs[s[j]]) ==> !Precedes(RankThenIndex, recs[s[j]], recs[s[i]])
  {
  }

  /** Keys that strictly increase along a list. */
  predicate StrictlySortedBy(c: Comparator, recs: map<ObjectId, Task>, s: seq<ObjectId>)
    requires AllIn(s, recs)
  {
    forall i, j :: 0 <= i < j < |s| ==> Precedes(c, recs[s[i]], recs[s[j]])
  }

  /** When the keys of `t` strictly increase, `t` is the only sorted
      permutation of itself. */
  lemma {:induction false} SortedPermutationUnique(c: Comparator, recs: map<ObjectId, Task>, r: seq<ObjectId>, t: seq<ObjectId>)
    requires AllIn(r, recs) && AllIn(t, recs)
    requires multiset(r) == multiset(t)
    requires SortedBy(c, recs, r) && StrictlySortedBy(c, recs, t)
    ensures r == t
    decreases |r|
  {
    if r != [] {
      SameHead(c, recs, r, t);
      assert r == [r[0]] + r[1..] && t == [t[0]] + t[1..];
      assert multiset(r[1..]) == multiset(r) - multiset{r[0]};
      assert multiset(t[1..]) == multiset(t) - multiset{t[0]};
      Tails(c, recs, r, t);
      SortedPermutationUnique(c, recs, r[1..], t[1..]);
    }
  }

  lemma SameHead(c: Comparator, recs: map<ObjectId, Task>, r: seq<ObjectId>, t: seq<ObjectId>)
    requires AllIn(r, recs) && AllIn(t, recs) && r != []
    requires multiset(r) == multiset(t)
    requires SortedBy(c, recs, r) && StrictlySortedBy(c, recs, t)
    ensures t != [] && r[0] == t[0]
  {
    assert r[0] in multiset(t);
    assert t[0] in multiset(r);
  }

  lemma Tails(c: Comparator, recs: map<ObjectId, Task>, r: seq<ObjectId>, t: seq<ObjectId>)
    requires AllIn(r, recs) && AllIn(t, recs) && r != [] && t != []
    requires SortedBy(c, recs, r) && StrictlySortedBy(c, recs, t)
    ensures AllIn(r[1..], recs) && SortedBy(c, recs, r[1..])
    ensures AllIn(t[1..], recs) && StrictlySortedBy(c, recs, t[1..])
  {
    assert forall x :: x in r[1..] ==> x in r;
    assert forall x :: x in t[1..] ==> x in t;
    forall i, j | 0 <= i < j < |r[1..]| ensures !Precedes(c, recs[r[1..][j]], recs[r[1..][i]]) {
      assert r[1..][i] == r[i + 1] && r[1..][j] == r[j + 1];
    }
    forall i, j | 0 <= i < j < |t[1..]| ensures Precedes(c, recs[t[1..][i]], recs[t[1..][j]]) {
      assert t[1..][i] == t[i + 1] && t[1..][j] == t[j + 1];
    }
  }

  /** Sorting a rearrangement of a list whose keys strictly increase restores
      that list. */
  lemma SortRestores(c: Comparator, recs: map<ObjectId, Task>, s: seq<ObjectId>, t: seq<ObjectId>)
    requires AllIn(s, recs) && AllIn(t, recs)
    requires multiset(s) == multiset(t) && StrictlySortedBy(c, recs, t)
    ensures Sort(c, recs, s) == t
  {
    SortedPermutationUnique(c, recs, Sort(c, recs, s), t);
  }

  /** The tasks of `s` that are "Done" (or, with `done` false, that are
      not), in the order of `s`. */
  function Group(recs: map<ObjectId, Task>, s: seq<ObjectId>, done: bool): (r: seq<ObjectId>)
    requires AllIn(s, recs)
    ensures AllIn(r, recs)
  {
    if s == [] then []
    else
      assert forall x :: x in s[1..] ==> x in s;
      (if IsDone(recs[s[0]]) == done then [s[0]] else []) + Group(recs, s[1..], done)
  }

  /** A group holds tasks of the list, all of them "Done" or all open. */
  lemma {:induction false} GroupMembers(recs: map<ObjectId, Task>, s: seq<ObjectId>, done: bool)
    requires AllIn(s, recs)
    ensures forall id :: id in Group(recs, s, done) ==> id in s && IsDone(recs[id]) == done
    decreases |s|
  {
    if s != [] {
      assert forall x :: x in s[1..] ==> x in s;
      GroupMembers(recs, s[1..], done);
    }
  }

  /** Grouping keeps the order of what it keeps: strictly increasing keys
      stay strictly increasing. */
  lemma {:induction false} GroupStrictlySorted(c: Comparator, recs: map<ObjectId, Task>, s: seq<ObjectId>, done: bool)
    requires AllIn(s, recs) && StrictlySortedBy(c, recs, s)
    ensures StrictlySortedBy(c, recs, Group(recs, s, done))
    decreases |s|
  {
    if s != [] {
      var tail := s[1..];
      assert forall x :: x in tail ==> x in s;
      assert StrictlySortedBy(c, recs, tail) by {
        forall i, j | 0 <= i < j < |tail| ensures Precedes(c, recs[tail[i]], recs[tail[j]]) {
          assert tail[i] == s[i + 1] && tail[j] == s[j + 1];
        }
      }
      GroupStrictlySorted(c, recs, tail, done);
      GroupMembers(recs, tail, done);
      var rest := Group(recs, tail, done);
      forall k | 0 <= k < |rest| ensures Precedes(c, recs[s[0]], recs[rest[k]]) {
        assert rest[k] in tail;
        var j :| 0 <= j < |tail| && tail[j] == rest[k];
        assert s[j + 1] == rest[k];
      }
    }
  }

  /** The open and the "Done" tasks of a list together make up the list. */
  lemma {:induction false} GroupsPartition(recs: map<ObjectId, Task>, s: seq<ObjectId>)
    requires AllIn(s, recs)
    ensures multiset(Group(recs, s, false)) + multiset(Group(recs, s, true)) == multiset(s)
    decreases |s|
  {
    if s != [] {
      assert forall x :: x in s[1..] ==> x in s;
      GroupsPartition(recs, s[1..]);
      GroupsStep(recs, s);
      assert multiset(s) == multiset{s[0]} + multiset(s[1..]) by {
        assert s == [s[0]] + s[1..];
      }
    }
  }

  /** The first task joins exactly one of the two groups. */
  lemma GroupsStep(recs: map<ObjectId, Task>, s: seq<ObjectId>)
    requires AllIn(s, recs) && s != []
    ensures AllIn(s[1..], recs)
    ensures multiset(Group(recs, s, false)) + multiset(Group(recs, s, true)) ==
            multiset{s[0]} + (multiset(Group(recs, s[1..], false)) + multiset(Group(recs, s[1..], true)))
  {
    assert forall x :: x in s[1..] ==> x in s;
    var a, b := Group(recs, s[1..], false), Group(recs, s[1..], true);
    if IsDone(recs[s[0]]) {
      assert Group(recs, s, false) == a;
      assert multiset(Group(recs, s, true)) == multiset{s[0]} + multiset(b) by {
        assert Group(recs, s, true) == [s[0]] + b;
      }
    } else {
      assert Group(recs, s, true) == b;
      assert multiset(Group(recs, s, false)) == multiset{s[0]} + multiset(a) by {
        assert Group(recs, s, false) == [s[0]] + a;
      }
    }
  }

  /** With no "Done" task in the list, the open group is the list itself and
      the "Done" group is empty. */
  lemma {:induction false} GroupsWithoutDone(recs: map<ObjectId, Task>, s: seq<ObjectId>)
    requires AllIn(s, recs) && forall id :: id in s ==> !IsDone(recs[id])
    ensures Group(recs, s, false) == s && Group(recs, s, true) == []
    decreases |s|
  {
    if s != [] {
      assert forall x :: x in s[1..] ==> x in s;
      GroupsWithoutDone(recs, s[1..]);
      assert s == [s[0]] + s[1..];
    }
  }

  /** Open tasks in strictly increasing (priorityRank, sortIndex) order,
      followed by "Done" tasks in that order, are strictly sorted with "Done"
      last. */
  lemma DoneGroupsLast(recs: map<ObjectId, Task>, o: seq<ObjectId>, d: seq<ObjectId>)
    requires AllIn(o, recs) && AllIn(d, recs)
    requires StrictlySortedBy(RankThenIndex, recs, o) && StrictlySortedBy(RankThenIndex, recs, d)
    requires forall id :: id in o ==> !IsDone(recs[id])
    requires forall id :: id in d ==> IsDone(recs[id])
    ensures AllIn(o + d, recs) && StrictlySortedBy(DoneLast, recs, o + d)
  {
    var t := o + d;
    forall i, j | 0 <= i < j < |t| ensures Precedes(DoneLast, recs[t[i]], recs[t[j]]) {
      if j < |o| {
        assert t[i] == o[i] && t[j] == o[j];
        assert o[i] in o && o[j] in o;
      } else if i >= |o| {
        assert t[i] == d[i - |o|] && t[j] == d[j - |o|];
        assert d[i - |o|] in d && d[j - |o|] in d;
      } else {
        assert t[i] == o[i] && t[j] == d[j - |o|];
        assert o[i] in o && d[j - |o|] in d;
      }
    }
  }
}
