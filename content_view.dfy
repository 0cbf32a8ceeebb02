/** The home screen of `Views/ContentView.swift`: a live fetch of today's
    tasks, the order the list shows them in, and the swipe-to-delete and
    drag-to-move handlers. The fetch's bounds are those the today predicate
    was built with; saving is a no-op here. */
module ContentView {
  import opened TaskRecords
  import opened TaskOrdering
  import opened Predicates
  import ListMove
  import TasksTaskViewModel
  import TaskRowCompact

  /** The `@FetchRequest`: the tasks the today predicate accepts, by
      priorityRank and then sortIndex. */
  function TodayTasks(order: seq<ObjectId>, recs: map<ObjectId, Task>, startOfToday: int, endOfToday: Option<int>): (r: seq<ObjectId>)
    requires AllIn(order, recs)
    ensures AllIn(r, recs) && SortedBy(RankThenIndex, recs, r)
    ensures forall id :: id in r <==> id in order && TodayPredicate(recs[id], startOfToday, endOfToday)
    ensures Distinct(order) ==> Distinct(r)
  {
    var today := FilterIds(order, recs, (t: Task) => TodayPredicate(t, startOfToday, endOfToday));
    var r := Sort(RankThenIndex, recs, today);
    assert forall id :: id in r <==> id in today by {
      forall id ensures id in r <==> id in today {
        assert id in r <==> id in multiset(r);
        assert id in today <==> id in multiset(today);
      }
    }
    if Distinct(order) then PermutationDistinct(today, r); r else r
  }

  /** `sortedTodayTasks`, the order the rows are shown in: open tasks before
      "Done" ones, then by priorityRank, then by sortIndex. */
  function SortedTodayTasks(recs: map<ObjectId, Task>, today: seq<ObjectId>): (r: seq<ObjectId>)
    requires AllIn(today, recs)
    ensures multiset(r) == multiset(today) && AllIn(r, recs)
    ensures forall i, j :: 0 <= i < j < |r| && IsDone(recs[r[i]]) ==> IsDone(recs[r[j]])
    ensures SortedBy(DoneLast, recs, r)
  {
    var r := Sort(DoneLast, recs, today);
    assert forall i, j :: 0 <= i < j < |r| && IsDone(recs[r[i]]) ==> IsDone(recs[r[j]]) by {
      forall i, j | 0 <= i < j < |r| && IsDone(recs[r[i]]) ensures IsDone(recs[r[j]]) {
        DoneLastMeans(recs, r, i, j);
      }
    }
    r
  }

  /** The rows at `offsets` of `list`, in the order the offsets come. */
  function RowsAt(list: seq<ObjectId>, offsets: seq<int>): (r: seq<ObjectId>)
    requires forall k :: 0 <= k < |offsets| ==> 0 <= offsets[k] < |list|
    ensures |r| == |offsets|
    ensures forall k :: 0 <= k < |offsets| ==> r[k] == list[offsets[k]]
  {
    if offsets == [] then []
    else RowsAt(list, offsets[..|offsets| - 1]) + [list[offsets[|offsets| - 1]]]
  }

  /** Today's tasks on the home screen with the fetch the code builds on
      day `now`: they are the tasks of that calendar day that are not
      postponed, and the rows show each of them once. */
  lemma TodayListMeans(order: seq<ObjectId>, recs: map<ObjectId, Task>, now: int)
    requires AllIn(order, recs) && Distinct(order)
    ensures var today := TodayTasks(order, recs, TodayBounds(now).0, TodayBounds(now).1);
      Distinct(today) &&
      (forall id :: id in today <==>
        id in order && recs[id].startTime.Some? && Days.SameDay(recs[id].startTime.value, now) &&
        recs[id].status != Some("Postpone"))
  {
    forall id | id in order {
      TodayMeansSameDay(recs[id], now);
    }
  }

  /** With two tasks of today, `a` "Done" and of a better rank than the
      open `b`, the fetch lists [a, b] whatever the store order. */
  lemma FetchListsDoneFirst(a: ObjectId, b: ObjectId, recs: map<ObjectId, Task>, startOfToday: int, endOfToday: Option<int>)
    requires a != b && a in recs && b in recs && IsDone(recs[a]) && !IsDone(recs[b])
    requires recs[a].priorityRank < recs[b].priorityRank
    requires TodayPredicate(recs[a], startOfToday, endOfToday) && TodayPredicate(recs[b], startOfToday, endOfToday)
    ensures TodayTasks([b, a], recs, startOfToday, endOfToday) == [a, b]
  {
    TodayFilterKeepsBoth(a, b, recs, startOfToday, endOfToday);
    assert multiset([b, a]) == multiset([a, b]);
    assert Precedes(RankThenIndex, recs[a], recs[b]);
    SortRestores(RankThenIndex, recs, [b, a], [a, b]);
  }

  /** Both of two tasks of today pass the fetch's filter, in store order. */
  lemma TodayFilterKeepsBoth(a: ObjectId, b: ObjectId, recs: map<ObjectId, Task>, startOfToday: int, endOfToday: Option<int>)
    requires a in recs && b in recs
    requires TodayPredicate(recs[a], startOfToday, endOfToday) && TodayPredicate(recs[b], startOfToday, endOfToday)
    ensures FilterIds([b, a], recs, (t: Task) => TodayPredicate(t, startOfToday, endOfToday)) == [b, a]
  {
    assert [b, a][1..] == [a] && [a][1..] == [];
  }

  /** The rows are shown in display order, but a swipe's offset is read in
      the fetch order: with the fetch [a, b] of `FetchListsDoneFirst` the
      screen shows [b, a], and swiping the first row, `b`, deletes `a`. */
  lemma SwipeDeletesOtherRow(a: ObjectId, b: ObjectId, recs: map<ObjectId, Task>)
    requires a != b && a in recs && b in recs && IsDone(recs[a]) && !IsDone(recs[b])
    ensures SortedTodayTasks(recs, [a, b]) == [b, a]
    ensures RowsAt([a, b], [0]) != RowsAt([b, a], [0])
  {
    assert multiset([b, a]) == multiset([a, b]);
    assert Precedes(DoneLast, recs[b], recs[a]);
    SortRestores(DoneLast, recs, [a, b], [b, a]);
  }

  /** `allTasks` is `Array(todayTasks)`, so the priority gate of a row sees
      only today's tasks: what a task of another day holds does not change
      whether a symbol can be picked. */
  lemma {:induction false} GateIgnoresOtherDays(recs: map<ObjectId, Task>, today: seq<ObjectId>, other: ObjectId, t: Task, symbol: string)
    requires AllIn(today, recs) && other !in today
    ensures AllIn(today, recs[other := t])
    ensures TaskRowCompact.Holders(recs[other := t], today, symbol) == TaskRowCompact.Holders(recs, today, symbol)
  {
    if today != [] {
      assert forall id :: id in today[1..] ==> id in today;
      GateIgnoresOtherDays(recs, today[1..], other, t, symbol);
    }
  }

  /** Hence two tasks can end up with the same symbol: a task of today may
      take "!" while a task of another day holds it. */
  lemma SymbolSharedAcrossDays(a: ObjectId, b: ObjectId, ta: Task, tb: Task)
    requires a != b && ta.prioritySymbol == None && tb.prioritySymbol == Some("!")
    ensures var recs := map[a := ta, b := tb];
      TaskRowCompact.CanUse(ta, "!", recs, [a]) &&
      !TaskRowCompact.Exclusive(recs[a := WithPriority(ta, "!")], [a, b])
  {
    var recs := map[a := ta, b := tb];
    assert [a][1..] == [];
    assert TaskRowCompact.Holders(recs, [a], "!") == 0;
    var recs' := recs[a := WithPriority(ta, "!")];
    assert recs'[[a, b][0]].prioritySymbol == recs'[[a, b][1]].prioritySymbol;
  }

  /** The records after moving `list` and numbering the moved list from 0:
      the task at each new position has that position as sortIndex and is
      otherwise unchanged, and a task outside the list is untouched. */
  function MovedAndRenumbered(recs: map<ObjectId, Task>, list: seq<ObjectId>, source: set<int>, destination: int): (w: map<ObjectId, Task>)
    requires AllIn(list, recs) && Distinct(list) && ListMove.ValidMove(|list|, source, destination)
    ensures w.Keys == recs.Keys
    ensures var moved := ListMove.Move(list, source, destination);
      forall i :: 0 <= i < |moved| ==> moved[i] in w && w[moved[i]] == recs[moved[i]].(sortIndex := i)
    ensures forall id :: id in recs && id !in list ==> w[id] == recs[id]
  {
    var moved := ListMove.Move(list, source, destination);
    MovedStaysIn(recs, list, source, destination);
    TasksTaskViewModel.WriteIndicesAt(recs, moved, |moved|);
    assert moved[..|moved|] == moved;
    TasksTaskViewModel.WriteIndices(recs, moved, |moved|)
  }

  /** A move keeps the list's tasks, each once. */
  lemma MovedStaysIn(recs: map<ObjectId, Task>, list: seq<ObjectId>, source: set<int>, destination: int)
    requires AllIn(list, recs) && Distinct(list) && ListMove.ValidMove(|list|, source, destination)
    ensures AllIn(ListMove.Move(list, source, destination), recs)
    ensures Distinct(ListMove.Move(list, source, destination))
    ensures forall id :: id in ListMove.Move(list, source, destination) <==> id in list
  {
    var moved := ListMove.Move(list, source, destination);
    ListMove.MovePermutes(list, source, destination);
    PermutationDistinct(list, moved);
    forall id ensures id in moved <==> id in list {
      assert id in moved <==> id in multiset(moved);
      assert id in list <==> id in multiset(list);
    }
  }

  /** Three tasks of today fetched as [a, b, c]: a "Done" task `a`, then
      two open tasks `b` and `c` of one rank, `b` numbered first. The rows
      show them as [b, c, a]. */
  lemma ThreeRowsShown(a: ObjectId, b: ObjectId, c: ObjectId, recs: map<ObjectId, Task>)
    requires a != b && b != c && a != c && a in recs && b in recs && c in recs
    requires IsDone(recs[a]) && !IsDone(recs[b]) && !IsDone(recs[c])
    requires recs[b].priorityRank == recs[c].priorityRank && recs[b].sortIndex < recs[c].sortIndex
    ensures SortedTodayTasks(recs, [a, b, c]) == [b, c, a]
  {
    assert multiset([b, c, a]) == multiset([a, b, c]);
    assert Precedes(DoneLast, recs[b], recs[c]);
    assert Precedes(DoneLast, recs[c], recs[a]);
    SortRestores(DoneLast, recs, [a, b, c], [b, c, a]);
  }

  /** Moving the first of three rows to destination 2 swaps the first two. */
  lemma MoveFirstPastOne(s: seq<ObjectId>)
    requires |s| == 3
    ensures ListMove.ValidMove(|s|, {0}, 2)
    ensures ListMove.Move(s, {0}, 2) == [s[1], s[0], s[2]]
  {
    ListMove.MoveOne(s, 0, 2);
  }

  /** As written, a drag's offsets are read in the fetch order: with the
      rows [b, c, a] of `ThreeRowsShown`, dragging the top row, `b`, below
      `c` (offset 0 to destination 2) moves `a` instead, and `b` keeps a
      smaller sortIndex than `c`, so it stays above `c`. */
  lemma MoveDragsOtherRow(a: ObjectId, b: ObjectId, c: ObjectId, recs: map<ObjectId, Task>)
    requires a != b && b != c && a != c && a in recs && b in recs && c in recs
    ensures var w := MovedAndRenumbered(recs, [a, b, c], {0}, 2);
      w[b].sortIndex < w[c].sortIndex && w[a].sortIndex == 1
  {
    var s := [a, b, c];
    MoveFirstPastOne(s);
    var m := [b, a, c];
    var w := MovedAndRenumbered(recs, s, {0}, 2);
    assert w[m[0]].sortIndex == 0 && w[m[1]].sortIndex == 1 && w[m[2]].sortIndex == 2;
  }

  /** Read in the order the rows are shown, the same drag puts `b` right
      below `c`: the shown rows [b, c, a] become [c, b, a], numbered 0, 1, 2. */
  lemma DisplayedMoveLandsRow(a: ObjectId, b: ObjectId, c: ObjectId, recs: map<ObjectId, Task>)
    requires a != b && b != c && a != c && a in recs && b in recs && c in recs
    ensures var w := MovedAndRenumbered(recs, [b, c, a], {0}, 2);
      w[c].sortIndex == 0 && w[b].sortIndex == 1 && w[a].sortIndex == 2
  {
    var s := [b, c, a];
    MoveFirstPastOne(s);
    var m := [c, b, a];
    var w := MovedAndRenumbered(recs, s, {0}, 2);
    assert w[m[0]].sortIndex == 0 && w[m[1]].sortIndex == 1 && w[m[2]].sortIndex == 2;
  }

  /** The body of `moveTasks`: move the list, then number it from 0. */
  method MoveAndRenumber(recs: map<ObjectId, Task>, list: seq<ObjectId>, source: set<int>, destination: int) returns (w: map<ObjectId, Task>)
    requires AllIn(list, recs) && Distinct(list) && ListMove.ValidMove(|list|, source, destination)
    requires |list| <= Int16Max + 1
    ensures w == MovedAndRenumbered(recs, list, source, destination)
  {
    var tasksArray := ListMove.Move(list, source, destination);
    MovedStaysIn(recs, list, source, destination);
    w := TasksTaskViewModel.Renumber(recs, tasksArray);
  }

  class ContentView {
    const context: Context
    const startOfToday: int
    const endOfToday: Option<int>

    ghost predicate Valid()
      reads context
    {
      context.Valid()
    }

    /** The fetch request is built with the bounds of the day `now`. */
    constructor (context: Context, now: int)
      requires context.Valid()
      ensures Valid() && this.context == context
      ensures (startOfToday, endOfToday) == TodayBounds(now)
    {
      this.context := context;
      startOfToday := TodayBounds(now).0;
      endOfToday := TodayBounds(now).1;
    }

    /** `todayTasks`, as the fetch now returns it. */
    function Today(): (r: seq<ObjectId>)
      requires Valid()
      reads this, context
      ensures AllIn(r, context.objects) && Distinct(r)
    {
      TodayTasks(context.order, context.objects, startOfToday, endOfToday)
    }

    /** `sortedTodayTasks`, the rows on screen. */
    function Displayed(): (r: seq<ObjectId>)
      requires Valid()
      reads this, context
      ensures AllIn(r, context.objects) && multiset(r) == multiset(Today()) && Distinct(r)
    {
      var r := SortedTodayTasks(context.objects, Today());
      PermutationDistinct(Today(), r);
      r
    }

    /** The loop `for index in offsets { viewContext.delete(list[index]) }`
      over a list read once before it: the fetched results do not change
      while the loop runs. */
    method DeleteRows(list: seq<ObjectId>, offsets: seq<int>)
      requires Valid()
      requires forall k :: 0 <= k < |offsets| ==> 0 <= offsets[k] < |list|
      modifies context
      ensures Valid()
      ensures context.order == WithoutAll(old(context.order), RowsAt(list, offsets))
      ensures context.objects == DeleteAll(old(context.objects), RowsAt(list, offsets))
    {
      var k := 0;
      while k < |offsets|
        invariant 0 <= k <= |offsets| && Valid()
        invariant context.order == WithoutAll(old(context.order), RowsAt(list, offsets[..k]))
        invariant context.objects == DeleteAll(old(context.objects), RowsAt(list, offsets[..k]))
      {
        var task := list[offsets[k]];
        assert offsets[..k + 1][..k] == offsets[..k];
        DeletingOneMore(old(context.order), old(context.objects), RowsAt(list, offsets[..k]), task);
        context.Delete(task);
        k := k + 1;
      }
      assert offsets[..|offsets|] == offsets;
    }

    /** `deleteTasks(at:)` as written: the offsets are read in the fetch
      order (see `SwipeDeletesOtherRow`). */
    method DeleteTasks(offsets: seq<int>)
      requires Valid()
      requires forall k :: 0 <= k < |offsets| ==> 0 <= offsets[k] < |Today()|
      modifies context
      ensures Valid()
      ensures context.order == WithoutAll(old(context.order), RowsAt(old(Today()), offsets))
      ensures context.objects == DeleteAll(old(context.objects), RowsAt(old(Today()), offsets))
    {
      var todayTasks := Today();
      DeleteRows(todayTasks, offsets);
    }

    /** The deletion the swipe evidently means: the offsets are read in the
      order the rows are shown, so exactly the tasks on the swiped rows go
      and every other task stays as it was. */
    method DeleteDisplayedTasks(offsets: seq<int>)
      requires Valid()
      requires forall k :: 0 <= k < |offsets| ==> 0 <= offsets[k] < |Displayed()|
      modifies context
      ensures Valid()
      ensures forall k :: 0 <= k < |offsets| ==> old(Displayed())[offsets[k]] !in context.objects
      ensures forall id :: id in context.objects <==>
        id in old(context.objects) && id !in RowsAt(old(Displayed()), offsets)
      ensures forall id :: id in context.objects ==> context.objects[id] == old(context.objects[id])
    {
      var rows := Displayed();
      DeleteRows(rows, offsets);
      assert forall k :: 0 <= k < |offsets| ==> rows[offsets[k]] == RowsAt(rows, offsets)[k];
    }

    /** `moveTasks(from:to:)`: the fetch order of today's tasks is moved, with
      no guard for pinned tasks, and each of today's tasks gets its new
      position as sortIndex; tasks of other days are untouched. The offsets
      are read in the fetch order, as in `DeleteTasks` (see
      `MoveDragsOtherRow`). */
    method MoveTasks(source: set<int>, destination: int)
      requires Valid()
      requires ListMove.ValidMove(|Today()|, source, destination)
      requires |Today()| <= Int16Max + 1
      modifies context
      ensures Valid() && context.order == old(context.order)
      ensures context.objects == MovedAndRenumbered(old(context.objects), old(Today()), source, destination)
    {
      var tasksArray := Today();
      var objects := MoveAndRenumber(context.objects, tasksArray, source, destination);
      context.Update(objects);
    }

    /** The move the drag evidently means: the offsets and the destination
      are read in the order the rows are shown, and each shown task gets its
      position in the moved rows as sortIndex (see `DisplayedMoveLandsRow`). */
    method MoveDisplayedTasks(source: set<int>, destination: int)
      requires Valid()
      requires ListMove.ValidMove(|Displayed()|, source, destination)
      requires |Displayed()| <= Int16Max + 1
      modifies context
      ensures Valid() && context.order == old(context.order)
      ensures context.objects == MovedAndRenumbered(old(context.objects), old(Displayed()), source, destination)
    {
      var rows := Displayed();
      var objects := MoveAndRenumber(context.objects, rows, source, destination);
      context.Update(objects);
    }
  }
}
