/** The month calendar of `Views/CalendarView.swift`: the grid of days, the
    per-day badge counts, the list of the selected day's tasks, dropping a
    task on a day, and deleting rows of the list. A month is the interval the
    calendar computed for it (`None` when it could not), in seconds. */
module CalendarView {
  import opened TaskRecords
  import opened Days
  import TasksTaskViewModel
  import TaskOrdering
  import ListMove

  // ---------------------------------------------------------------------
  // The grid

  /** `makeDaysInMonth`: the day starts from the first of the month up to,
      and excluding, the end of the interval, one day apart. */
  method MakeDaysInMonth(interval: Option<(int, int)>) returns (days: seq<int>)
    ensures interval.None? ==> days == []
    ensures interval.Some? ==>
      (forall i :: 0 <= i < |days| ==>
        days[i] == interval.value.0 + i * SecondsPerDay && days[i] < interval.value.1) &&
      interval.value.0 + |days| * SecondsPerDay >= interval.value.1
  {
    days := [];
    if interval.None? {
      return;
    }
    var start := interval.value.0;
    var end := interval.value.1;
    var current := start;
    while current < end
      invariant current == start + |days| * SecondsPerDay
      invariant forall i :: 0 <= i < |days| ==> days[i] == start + i * SecondsPerDay && days[i] < end
      decreases end - current
    {
      days := days + [current];
      current := current + SecondsPerDay;
    }
  }

  // ---------------------------------------------------------------------
  // Badge counts

  /** `dailyTaskCounts[day] ?? 0`, the number a day cell shows (when above 0). */
  function Badge(counts: map<int, int>, day: int): int {
    if day in counts then counts[day] else 0
  }

  predicate NonNegative(counts: map<int, int>) {
    forall k :: k in counts ==> counts[k] >= 0
  }

  /** `counts[key, default: 0] += 1`. */
  function Bump(counts: map<int, int>, key: int): (r: map<int, int>)
    ensures r.Keys == counts.Keys + {key}
    ensures forall k :: Badge(r, k) == Badge(counts, k) + (if k == key then 1 else 0)
    ensures NonNegative(counts) ==> NonNegative(r)
  {
    counts[key := Badge(counts, key) + 1]
  }

  /** The decrement floored at 0, applied only when the key exists. */
  function Decrement(counts: map<int, int>, key: int): (r: map<int, int>)
    ensures r.Keys == counts.Keys
    ensures forall k :: k != key ==> Badge(r, k) == Badge(counts, k)
    ensures Badge(counts, key) > 0 ==> Badge(r, key) == Badge(counts, key) - 1
    ensures key in counts && counts[key] <= 0 ==> r[key] == 0
    ensures NonNegative(counts) ==> NonNegative(r)
  {
    if key in counts then counts[key := if counts[key] - 1 > 0 then counts[key] - 1 else 0] else counts
  }

  predicate OnDay(t: Task, day: int) {
    t.startTime.Some? && StartOfDay(t.startTime.value) == day
  }

  /** How many of `ids` start on `day`. */
  function CountOn(recs: map<ObjectId, Task>, ids: seq<ObjectId>, day: int): nat
    requires AllIn(ids, recs)
  {
    if ids == [] then 0
    else
      assert forall x :: x in ids[..|ids| - 1] ==> x in ids;
      CountOn(recs, ids[..|ids| - 1], day) + (if OnDay(recs[ids[|ids| - 1]], day) then 1 else 0)
  }

  /** The loop of `fetchMonthlyTaskCounts` over the fetched tasks. */
  function Tally(recs: map<ObjectId, Task>, ids: seq<ObjectId>): map<int, int>
    requires AllIn(ids, recs)
  {
    if ids == [] then map[]
    else
      assert forall x :: x in ids[..|ids| - 1] ==> x in ids;
      var prev := Tally(recs, ids[..|ids| - 1]);
      var t := recs[ids[|ids| - 1]];
      if t.startTime.Some? then Bump(prev, StartOfDay(t.startTime.value)) else prev
  }

  /** The counts map each day to the number of tasks starting on it; a day
      without tasks has no key. */
  lemma {:induction false} TallyCounts(recs: map<ObjectId, Task>, ids: seq<ObjectId>)
    requires AllIn(ids, recs)
    ensures forall d :: d in Tally(recs, ids) <==> CountOn(recs, ids, d) > 0
    ensures forall d :: Badge(Tally(recs, ids), d) == CountOn(recs, ids, d)
  {
    if ids != [] {
      assert forall x :: x in ids[..|ids| - 1] ==> x in ids;
      TallyCounts(recs, ids[..|ids| - 1]);
    }
  }

  /** The tasks the monthly fetch returns: those starting in [start, end). */
  function MonthTasks(order: seq<ObjectId>, recs: map<ObjectId, Task>, start: int, end: int): (r: seq<ObjectId>)
    requires AllIn(order, recs)
    ensures AllIn(r, recs)
    ensures forall id :: id in r <==> id in order && TasksTaskViewModel.StartsIn(recs[id], start, end)
  {
    FilterIds(order, recs, (t: Task) => TasksTaskViewModel.StartsIn(t, start, end))
  }

  /** The tasks `fetchTasks(for:)` returns for `day`, in store order. */
  function DayTasks(order: seq<ObjectId>, recs: map<ObjectId, Task>, day: int): (r: seq<ObjectId>)
    requires AllIn(order, recs)
    ensures AllIn(r, recs)
    ensures forall id :: id in r <==> id in order && recs[id].startTime.Some? && SameDay(recs[id].startTime.value, day)
  {
    var start := StartOfDay(day);
    var r := FilterIds(order, recs, (t: Task) => TasksTaskViewModel.StartsIn(t, start, start + SecondsPerDay));
    assert forall id :: id in order && recs[id].startTime.Some? && SameDay(recs[id].startTime.value, day) ==> id in r by {
      forall id | id in order && recs[id].startTime.Some? && SameDay(recs[id].startTime.value, day) ensures id in r {
        var st := recs[id].startTime.value;
        assert StartOfDay(st) == start;
      }
    }
    r
  }

  // ---------------------------------------------------------------------
  // Dropping a task on a day

  /** The badge counts after a drop: the old day loses one (only when it has
      a key, and never below 0), the target day gains one. */
  function CountsAfterDrop(counts: map<int, int>, oldStart: Option<int>, day: int): (r: map<int, int>)
    ensures NonNegative(counts) ==> NonNegative(r)
    ensures r.Keys == counts.Keys + {StartOfDay(day)}
  {
    var lowered := if oldStart.Some? then Decrement(counts, StartOfDay(oldStart.value)) else counts;
    Bump(lowered, StartOfDay(day))
  }

  /** The selected day's list after a drop: the task leaves it when it was on
      the selected day, and is appended when it lands on the selected day. */
  function ListAfterDrop(list: seq<ObjectId>, id: ObjectId, oldStart: Option<int>, day: int, selected: int): (r: seq<ObjectId>)
    ensures forall x :: x != id ==> (x in r <==> x in list)
    ensures id in r <==> SameDay(day, selected) || (id in list && !(oldStart.Some? && SameDay(oldStart.value, selected)))
    ensures SameDay(day, selected) ==> |r| > 0 && r[|r| - 1] == id
  {
    var kept := if oldStart.Some? && SameDay(oldStart.value, selected) then Without(list, id) else list;
    if SameDay(day, selected) then kept + [id] else kept
  }

  lemma {:induction false} CountOnPositive(recs: map<ObjectId, Task>, ids: seq<ObjectId>, id: ObjectId, day: int)
    requires AllIn(ids, recs) && id in ids && OnDay(recs[id], day)
    ensures CountOn(recs, ids, day) > 0
  {
    var prefix := ids[..|ids| - 1];
    assert forall x :: x in prefix ==> x in ids;
    if ids[|ids| - 1] != id {
      assert ids == prefix + [ids[|ids| - 1]];
      CountOnPositive(recs, prefix, id, day);
    }
  }

  lemma {:induction false} CountOnOthers(recs: map<ObjectId, Task>, ids: seq<ObjectId>, id: ObjectId, t: Task, day: int)
    requires AllIn(ids, recs) && id !in ids
    ensures AllIn(ids, recs[id := t]) && CountOn(recs[id := t], ids, day) == CountOn(recs, ids, day)
  {
    if ids != [] {
      var prefix := ids[..|ids| - 1];
      assert forall x :: x in prefix ==> x in ids;
      CountOnOthers(recs, prefix, id, t, day);
    }
  }

  /** Changing one listed task moves its contribution from its old day to
      its new one. */
  lemma {:induction false} CountOnUpdate(recs: map<ObjectId, Task>, ids: seq<ObjectId>, id: ObjectId, t: Task, day: int)
    requires AllIn(ids, recs) && Distinct(ids) && id in ids
    ensures AllIn(ids, recs[id := t])
    ensures CountOn(recs[id := t], ids, day) + (if OnDay(recs[id], day) then 1 else 0) ==
            CountOn(recs, ids, day) + (if OnDay(t, day) then 1 else 0)
  {
    var prefix := ids[..|ids| - 1];
    assert forall x :: x in prefix ==> x in ids;
    assert Distinct(prefix);
    if ids[|ids| - 1] == id {
      assert id !in prefix;
      CountOnOthers(recs, prefix, id, t, day);
    } else {
      assert ids == prefix + [ids[|ids| - 1]];
      CountOnUpdate(recs, prefix, id, t, day);
    }
  }

  /** Updating the counts in place on a drop agrees with counting again: when
      the counts were those of a list of tasks holding the dropped one, every
      badge after the drop equals the number of those tasks on that day once
      the task has been moved. */
  lemma DropAgreesWithRecount(recs: map<ObjectId, Task>, ids: seq<ObjectId>, id: ObjectId, newStart: int, day: int)
    requires AllIn(ids, recs) && Distinct(ids) && id in ids && SameDay(newStart, day)
    ensures AllIn(ids, recs[id := recs[id].(startTime := Some(newStart))])
    ensures forall d :: (Badge(CountsAfterDrop(Tally(recs, ids), recs[id].startTime, day), d) ==
                         CountOn(recs[id := recs[id].(startTime := Some(newStart))], ids, d))
  {
    var t := recs[id].(startTime := Some(newStart));
    var counts := Tally(recs, ids);
    TallyCounts(recs, ids);
    var oldStart := recs[id].startTime;
    var lowered := if oldStart.Some? then Decrement(counts, StartOfDay(oldStart.value)) else counts;
    forall d ensures Badge(CountsAfterDrop(counts, oldStart, day), d) == CountOn(recs[id := t], ids, d) {
      CountOnUpdate(recs, ids, id, t, d);
      if OnDay(recs[id], d) {
        CountOnPositive(recs, ids, id, d);
      }
      assert Badge(lowered, d) == CountOn(recs, ids, d) - (if OnDay(recs[id], d) then 1 else 0);
    }
  }

  // ---------------------------------------------------------------------
  // Deleting rows

  /** `remove(at: index)`. */
  function RemoveAt(list: seq<ObjectId>, index: int): (r: seq<ObjectId>)
    requires 0 <= index < |list|
    ensures |r| == |list| - 1
    ensures forall i :: 0 <= i < |r| ==> r[i] == if i < index then list[i] else list[i + 1]
  {
    list[..index] + list[index + 1..]
  }

  /** The rest and the removed row together are the list. */
  lemma RemoveAtParts(list: seq<ObjectId>, index: int)
    requires 0 <= index < |list|
    ensures multiset(RemoveAt(list, index)) + multiset{list[index]} == multiset(list)
  {
    assert list == list[..index] + [list[index]] + list[index + 1..];
  }

  /** Each offset, taken in increasing order, is read from the list as the
      earlier removals have left it, and must be in range there. */
  predicate RemovableInTurn(list: seq<ObjectId>, offsets: seq<int>)
    decreases |offsets|, 0
  {
    offsets == [] ||
    (RemovableInTurn(list, offsets[..|offsets| - 1]) &&
     0 <= offsets[|offsets| - 1] < |RemainingInTurn(list, offsets[..|offsets| - 1])|)
  }

  /** The list after `offsets.forEach { tasksForSelectedDate.remove(at: $0) }`. */
  function RemainingInTurn(list: seq<ObjectId>, offsets: seq<int>): (r: seq<ObjectId>)
    requires RemovableInTurn(list, offsets)
    ensures |r| == |list| - |offsets|
    decreases |offsets|, 1
  {
    if offsets == [] then list
    else RemoveAt(RemainingInTurn(list, offsets[..|offsets| - 1]), offsets[|offsets| - 1])
  }

  /** The tasks that loop removes, in the order it removes them. */
  function RemovedInTurn(list: seq<ObjectId>, offsets: seq<int>): (r: seq<ObjectId>)
    requires RemovableInTurn(list, offsets)
    ensures |r| == |offsets|
  {
    if offsets == [] then []
    else
      var prefix := offsets[..|offsets| - 1];
      var before := RemainingInTurn(list, prefix);
      RemovedInTurn(list, prefix) + [before[offsets[|offsets| - 1]]]
  }

  /** What the loop removed and what it kept together are the list. */
  lemma {:induction false} RemovedInTurnParts(list: seq<ObjectId>, offsets: seq<int>)
    requires RemovableInTurn(list, offsets)
    ensures multiset(RemainingInTurn(list, offsets)) + multiset(RemovedInTurn(list, offsets)) == multiset(list)
    decreases |offsets|
  {
    if offsets != [] {
      var prefix := offsets[..|offsets| - 1];
      RemovedInTurnParts(list, prefix);
      RemoveAtParts(RemainingInTurn(list, prefix), offsets[|offsets| - 1]);
    }
  }

  lemma {:induction false} RemovablePrefix(list: seq<ObjectId>, offsets: seq<int>, k: int)
    requires RemovableInTurn(list, offsets) && 0 <= k <= |offsets|
    ensures RemovableInTurn(list, offsets[..k])
    decreases |offsets|
  {
    if k == |offsets| {
      assert offsets[..k] == offsets;
    } else {
      assert offsets[..|offsets| - 1][..k] == offsets[..k];
      RemovablePrefix(list, offsets[..|offsets| - 1], k);
    }
  }

  /** One more offset: the loop removes the row at that offset of the list
      as the earlier removals left it. */
  lemma RemovedInTurnStep(list: seq<ObjectId>, offsets: seq<int>, k: int)
    requires RemovableInTurn(list, offsets) && 0 <= k < |offsets|
    ensures RemovableInTurn(list, offsets[..k]) && RemovableInTurn(list, offsets[..k + 1])
    ensures 0 <= offsets[k] < |RemainingInTurn(list, offsets[..k])|
    ensures RemainingInTurn(list, offsets[..k + 1]) == RemoveAt(RemainingInTurn(list, offsets[..k]), offsets[k])
    ensures RemovedInTurn(list, offsets[..k + 1]) ==
      RemovedInTurn(list, offsets[..k]) + [RemainingInTurn(list, offsets[..k])[offsets[k]]]
  {
    RemovablePrefix(list, offsets, k + 1);
    assert offsets[..k + 1][..k] == offsets[..k];
  }

  /** The first removal of [a, b, c] at offset 0 leaves [b, c]. */
  lemma FirstRowRemoved(a: ObjectId, b: ObjectId, c: ObjectId)
    ensures RemovableInTurn([a, b, c], [0])
    ensures RemovedInTurn([a, b, c], [0]) == [a]
    ensures RemainingInTurn([a, b, c], [0]) == [b, c]
  {
    assert [0][..0] == [];
    assert RemoveAt([a, b, c], 0) == [b, c];
  }

  /** After the first removal, offset 1 of [a, b, c] is still in range. */
  lemma SecondOffsetInRange(a: ObjectId, b: ObjectId, c: ObjectId)
    ensures RemovableInTurn([a, b, c], [0, 1])
  {
    FirstRowRemoved(a, b, c);
    assert [0, 1][..1] == [0];
  }

  /** Removing the rows at offsets {0, 1} of [a, b, c] one after the other
      removes a and then c, the row that moved into offset 1, and keeps b. */
  lemma SequentialDeleteSkipsRow(a: ObjectId, b: ObjectId, c: ObjectId)
    ensures RemovableInTurn([a, b, c], [0, 1])
    ensures RemovedInTurn([a, b, c], [0, 1]) == [a, c]
    ensures RemainingInTurn([a, b, c], [0, 1]) == [b]
  {
    SecondOffsetInRange(a, b, c);
    FirstRowRemoved(a, b, c);
    assert [0, 1][..1] == [0];
    var once := [b, c];
    assert RemoveAt(once, 1) == [b];
  }

  /** The intended removal of the rows at offsets {0, 1} of [a, b, c] keeps c. */
  lemma RemoveAtOffsetsKeepsRow(a: ObjectId, b: ObjectId, c: ObjectId)
    ensures RemoveAtOffsets([a, b, c], {0, 1}) == [c]
  {
    var list := [a, b, c];
    var chosen := {0, 1};
    assert ListMove.Pick(list, chosen, 3, 3, false) == [];
    assert ListMove.Pick(list, chosen, 2, 3, false) == [c];
    assert ListMove.Pick(list, chosen, 1, 3, false) == [c];
  }

  /** `remove(atOffsets:)`, what the loop evidently means: every row whose
      offset was chosen goes, the others stay in order. */
  function RemoveAtOffsets(list: seq<ObjectId>, offsets: set<int>): (r: seq<ObjectId>)
    ensures forall x :: x in r <==> exists i :: 0 <= i < |list| && i !in offsets && list[i] == x
  {
    ListMove.PickMembers(list, offsets, 0, |list|, false);
    ListMove.Pick(list, offsets, 0, |list|, false)
  }

  /** The kept rows and the chosen rows together are the list. */
  lemma RemoveAtOffsetsKeepsOthers(list: seq<ObjectId>, offsets: set<int>)
    ensures multiset(RemoveAtOffsets(list, offsets)) + multiset(ListMove.Pick(list, offsets, 0, |list|, true)) == multiset(list)
  {
    ListMove.PickPartition(list, offsets, 0, |list|);
    assert list[0..|list|] == list;
  }

  /** The badge counts after deleting one task: its day loses one, floored at
      0, when the task has a start and the day has a key. */
  function DropDay(counts: map<int, int>, t: Task): (r: map<int, int>)
    ensures r.Keys == counts.Keys
    ensures forall d :: !OnDay(t, d) ==> Badge(r, d) == Badge(counts, d)
    ensures forall d :: OnDay(t, d) && Badge(counts, d) > 0 ==> Badge(r, d) == Badge(counts, d) - 1
    ensures forall d :: OnDay(t, d) && d in counts && counts[d] <= 0 ==> r[d] == 0
    ensures NonNegative(counts) ==> NonNegative(r)
  {
    if t.startTime.Some? then Decrement(counts, StartOfDay(t.startTime.value)) else counts
  }

  /** The badge counts after the loop: each removed task's day loses one,
      floored at 0, when it has a key. */
  function DecrementDays(counts: map<int, int>, recs: map<ObjectId, Task>, ids: seq<ObjectId>): (r: map<int, int>)
    requires AllIn(ids, recs)
    ensures r.Keys == counts.Keys
    ensures NonNegative(counts) ==> NonNegative(r)
    ensures forall d :: Badge(counts, d) - CountOn(recs, ids, d) <= Badge(r, d)
    ensures NonNegative(counts) ==> forall d :: Badge(r, d) <= Badge(counts, d)
  {
    if ids == [] then counts
    else
      assert forall x :: x in ids[..|ids| - 1] ==> x in ids;
      DropDay(DecrementDays(counts, recs, ids[..|ids| - 1]), recs[ids[|ids| - 1]])
  }

  /** How many of `ids` start on `day`, once `x` is removed from them. */
  lemma {:induction false} CountOnWithout(recs: map<ObjectId, Task>, ids: seq<ObjectId>, x: ObjectId, day: int)
    requires AllIn(ids, recs) && Distinct(ids) && x in ids
    ensures AllIn(Without(ids, x), recs)
    ensures CountOn(recs, ids, day) == CountOn(recs, Without(ids, x), day) + (if OnDay(recs[x], day) then 1 else 0)
  {
    var init := ids[..|ids| - 1];
    WithoutLast(ids, x);
    if ids[|ids| - 1] != x {
      CountOnWithout(recs, init, x, day);
    }
  }

  /** How removing `x` treats the last element of a list without repeats:
      the list minus its last element if that is `x`, and otherwise that
      element kept last after removing `x` from the rest. */
  lemma WithoutLast(ids: seq<ObjectId>, x: ObjectId)
    requires Distinct(ids) && x in ids
    ensures var w := Without(ids, x);
            if ids[|ids| - 1] == x then w == ids[..|ids| - 1]
            else x in ids[..|ids| - 1] && w != [] && w[..|w| - 1] == Without(ids[..|ids| - 1], x) &&
                 w[|w| - 1] == ids[|ids| - 1]
  {
    var init := ids[..|ids| - 1];
    var y := ids[|ids| - 1];
    assert ids == init + [y];
    WithoutKeepsOrder(init, [y], x);
    if y == x {
      assert x !in init;
    } else {
      assert Without([y], x) == [y];
      assert Without(ids, x) == Without(init, x) + [y];
    }
  }

  /** Deleting rows lowers the badges in step with a recount: when the counts
      were those of a list of distinct tasks, and the deleted tasks are
      distinct members of that list, every badge after the decrements equals
      the number of the list's remaining tasks on that day. This is the
      delete-side partner of `DropAgreesWithRecount`: the floor at 0 never
      comes into play. */
  lemma {:induction false} DeleteAgreesWithRecount(counts: map<int, int>, recs: map<ObjectId, Task>,
                                                   listed: seq<ObjectId>, ids: seq<ObjectId>)
    requires AllIn(listed, recs) && Distinct(listed) && AllIn(ids, recs) && Distinct(ids)
    requires forall x :: x in ids ==> x in listed
    requires forall d :: Badge(counts, d) == CountOn(recs, listed, d)
    ensures AllIn(WithoutAll(listed, ids), recs)
    ensures forall d :: Badge(DecrementDays(counts, recs, ids), d) == CountOn(recs, WithoutAll(listed, ids), d)
  {
    if ids != [] {
      var init := ids[..|ids| - 1];
      var t := ids[|ids| - 1];
      assert ids == init + [t];
      assert forall x :: x in init ==> x in ids;
      DeleteAgreesWithRecount(counts, recs, listed, init);
      DeletedOneMore(counts, recs, listed, init, t);
      var prev := DecrementDays(counts, recs, init);
      var rest := WithoutAll(listed, init);
      forall d ensures Badge(DropDay(prev, recs[t]), d) == CountOn(recs, Without(rest, t), d) {
        DeleteOneRecount(prev, recs, rest, t, d);
      }
    }
  }

  /** One deletion: a badge that counted the remaining tasks on its day
      still does once one of them is deleted. */
  lemma DeleteOneRecount(prev: map<int, int>, recs: map<ObjectId, Task>, rest: seq<ObjectId>, t: ObjectId, d: int)
    requires AllIn(rest, recs) && Distinct(rest) && t in rest
    requires Badge(prev, d) == CountOn(recs, rest, d)
    ensures AllIn(Without(rest, t), recs)
    ensures Badge(DropDay(prev, recs[t]), d) == CountOn(recs, Without(rest, t), d)
  {
    CountOnWithout(recs, rest, t, d);
  }

  /** The three results of deleting one more task unfold by one step. */
  lemma DeletedOneMore(counts: map<int, int>, objects: map<ObjectId, Task>, order: seq<ObjectId>, removed: seq<ObjectId>, task: ObjectId)
    requires AllIn(removed + [task], objects)
    ensures AllIn(removed, objects)
    ensures DecrementDays(counts, objects, removed + [task]) == DropDay(DecrementDays(counts, objects, removed), objects[task])
    ensures WithoutAll(order, removed + [task]) == Without(WithoutAll(order, removed), task)
    ensures DeleteAll(objects, removed + [task]) == DeleteAll(objects, removed) - {task}
  {
    assert (removed + [task])[..|removed|] == removed;
    DeletingOneMore(order, objects, removed, task);
  }

  // ---------------------------------------------------------------------
  // The view

  /** `tasks` is what a refetch of today's tasks gives, or empty when the
      fetch fails. */
  ghost predicate ListedToday(tasks: seq<ObjectId>, order: seq<ObjectId>, objects: map<ObjectId, Task>, now: int, fetchFails: bool)
  {
    AllIn(order, objects) &&
    tasks == if fetchFails then [] else TasksTaskViewModel.FetchToday(order, objects, now)
  }

  class CalendarView {
    const context: Context
    const taskVM: TasksTaskViewModel.TaskViewModel
    var selectedDate: int
    var tasksForSelectedDate: seq<ObjectId>
    var dailyTaskCounts: map<int, int>

    ghost predicate Valid()
      reads this, taskVM, context
    {
      taskVM.context == context && taskVM.Valid()
    }

    constructor (taskVM: TasksTaskViewModel.TaskViewModel, now: int)
      requires taskVM.Valid()
      ensures Valid() && this.taskVM == taskVM && context == taskVM.context
      ensures selectedDate == now && tasksForSelectedDate == [] && dailyTaskCounts == map[]
    {
      this.taskVM := taskVM;
      context := taskVM.context;
      selectedDate := now;
      tasksForSelectedDate := [];
      dailyTaskCounts := map[];
    }

    /** Tapping a day selects it and lists the tasks that start on it. */
    method SelectDay(day: int, fetchFails: bool)
      requires Valid()
      modifies this`selectedDate, this`tasksForSelectedDate
      ensures selectedDate == day
      ensures tasksForSelectedDate == if fetchFails then [] else DayTasks(context.order, context.objects, day)
    {
      selectedDate := day;
      if fetchFails {
        tasksForSelectedDate := [];
      } else {
        tasksForSelectedDate := DayTasks(context.order, context.objects, day);
      }
    }

    /** `fetchMonthlyTaskCounts(for:)`: no interval leaves the counts alone, a
      failed fetch empties them. */
    method FetchMonthlyTaskCounts(interval: Option<(int, int)>, fetchFails: bool)
      requires Valid()
      modifies this`dailyTaskCounts
      ensures interval.None? ==> dailyTaskCounts == old(dailyTaskCounts)
      ensures interval.Some? && fetchFails ==> dailyTaskCounts == map[]
      ensures interval.Some? && !fetchFails ==>
        dailyTaskCounts == Tally(context.objects, MonthTasks(context.order, context.objects, interval.value.0, interval.value.1))
    {
      if interval.None? {
        return;
      }
      if fetchFails {
        dailyTaskCounts := map[];
        return;
      }
      var tasks := MonthTasks(context.order, context.objects, interval.value.0, interval.value.1);
      dailyTaskCounts := CountByDay(context.objects, tasks);
    }

    /** The drop handler: an ID naming no live task is refused and changes
      nothing; otherwise the task is rescheduled and the list and counts are
      updated in place. */
    method OnDropTask(idString: ObjectId, day: int) returns (ok: bool)
      requires Valid()
      modifies this`tasksForSelectedDate, this`dailyTaskCounts, context
      ensures Valid() && context.order == old(context.order)
      ensures ok <==> idString in old(context.objects)
      ensures !ok ==> (context.objects == old(context.objects) &&
                       tasksForSelectedDate == old(tasksForSelectedDate) && dailyTaskCounts == old(dailyTaskCounts))
      ensures ok ==>
        var oldStart := old(context.objects[idString]).startTime;
        context.objects == old(context.objects)[idString :=
          old(context.objects[idString]).(startTime := Some(TasksTaskViewModel.RescheduledStart(oldStart, day)))] &&
        tasksForSelectedDate == ListAfterDrop(old(tasksForSelectedDate), idString, oldStart, day, selectedDate) &&
        dailyTaskCounts == CountsAfterDrop(old(dailyTaskCounts), oldStart, day)
    {
      if idString !in context.objects {
        return false;
      }
      var oldDate := context.objects[idString].startTime;
      taskVM.RescheduleTask(idString, day);
      if oldDate.Some? && SameDay(oldDate.value, selectedDate) {
        tasksForSelectedDate := Without(tasksForSelectedDate, idString);
      }
      if SameDay(day, selectedDate) {
        tasksForSelectedDate := tasksForSelectedDate + [idString];
      }
      if oldDate.Some? {
        dailyTaskCounts := Decrement(dailyTaskCounts, StartOfDay(oldDate.value));
      }
      dailyTaskCounts := Bump(dailyTaskCounts, StartOfDay(day));
      return true;
    }

    /** The body of the `deleteTasks(at:)` loop for one offset: the row leaves
      the list, its day's badge loses one, and the task is deleted through
      the task view model. */
    method DeleteRow(index: int, now: int, fetchFails: bool) returns (task: ObjectId)
      requires Valid() && 0 <= index < |tasksForSelectedDate|
      requires tasksForSelectedDate[index] in context.objects
      modifies this`tasksForSelectedDate, this`dailyTaskCounts, taskVM`tasks, context
      ensures Valid()
      ensures task == old(tasksForSelectedDate[index])
      ensures tasksForSelectedDate == RemoveAt(old(tasksForSelectedDate), index)
      ensures dailyTaskCounts == DropDay(old(dailyTaskCounts), old(context.objects[task]))
      ensures context.order == Without(old(context.order), task)
      ensures context.objects == old(context.objects) - {task}
      ensures taskVM.tasks == if fetchFails then [] else TasksTaskViewModel.FetchToday(context.order, context.objects, now)
    {
      task := tasksForSelectedDate[index];
      tasksForSelectedDate := RemoveAt(tasksForSelectedDate, index);
      var st := context.objects[task].startTime;
      if st.Some? {
        dailyTaskCounts := Decrement(dailyTaskCounts, StartOfDay(st.value));
      }
      taskVM.DeleteTask(task, now, fetchFails);
    }

    /** The task view model's list is today's tasks as the store now holds
      them, or empty after a failed fetch. */
    ghost predicate Refreshed(now: int, fetchFails: bool)
      reads this, taskVM, context
    {
      Valid() && ListedToday(taskVM.tasks, context.order, context.objects, now, fetchFails)
    }

    /** The state after the `deleteTasks(at:)` loop has handled the first
      `k` offsets, starting from `list0`, `counts0`, `objects0` and `order0`. */
    ghost predicate DeletedInTurn(list0: seq<ObjectId>, counts0: map<int, int>, objects0: map<ObjectId, Task>,
                                  order0: seq<ObjectId>, offsets: seq<int>, k: int)
      reads this, context
    {
      0 <= k <= |offsets| && RemovableInTurn(list0, offsets[..k]) &&
      var removed := RemovedInTurn(list0, offsets[..k]);
      AllIn(removed, objects0) &&
      tasksForSelectedDate == RemainingInTurn(list0, offsets[..k]) &&
      dailyTaskCounts == DecrementDays(counts0, objects0, removed) &&
      context.order == WithoutAll(order0, removed) &&
      context.objects == DeleteAll(objects0, removed)
    }

    /** Before the first turn, nothing has been deleted. */
    lemma NothingDeletedYet(offsets: seq<int>)
      ensures DeletedInTurn(tasksForSelectedDate, dailyTaskCounts, context.objects, context.order, offsets, 0)
    {
      assert offsets[..0] == [];
    }

    /** One turn of the `deleteTasks(at:)` loop. */
    method DeleteNext(offsets: seq<int>, k: int, now: int, fetchFails: bool, ghost list0: seq<ObjectId>,
                      ghost counts0: map<int, int>, ghost objects0: map<ObjectId, Task>, ghost order0: seq<ObjectId>)
      requires Valid() && RemovableInTurn(list0, offsets) && k < |offsets|
      requires Distinct(list0) && AllIn(list0, objects0)
      requires DeletedInTurn(list0, counts0, objects0, order0, offsets, k)
      modifies this`tasksForSelectedDate, this`dailyTaskCounts, taskVM`tasks, context
      ensures Valid() && DeletedInTurn(list0, counts0, objects0, order0, offsets, k + 1)
      ensures ListedToday(taskVM.tasks, context.order, context.objects, now, fetchFails)
    {
      RemovedInTurnStep(list0, offsets, k);
      ghost var removed := RemovedInTurn(list0, offsets[..k]);
      var index := offsets[k];
      ghost var task0 := tasksForSelectedDate[index];
      assert task0 in multiset(tasksForSelectedDate);
      StillListed(list0, offsets[..k], task0);
      var task := DeleteRow(index, now, fetchFails);
      DeletedOneMore(counts0, objects0, order0, removed, task);
    }

    /** `deleteTasks(at:)`, with the offsets in the order the `IndexSet`
      yields them (increasing; the model takes any order). Each row is read at its offset in the list as
      already shrunk (see `SequentialDeleteSkipsRow`); the rows must name
      distinct live tasks. */
    method DeleteTasks(offsets: seq<int>, now: int, fetchFails: bool)
      requires Valid()
      requires RemovableInTurn(tasksForSelectedDate, offsets)
      requires Distinct(tasksForSelectedDate) && AllIn(tasksForSelectedDate, context.objects)
      modifies this`tasksForSelectedDate, this`dailyTaskCounts, taskVM`tasks, context
      ensures Valid()
      ensures DeletedInTurn(old(tasksForSelectedDate), old(dailyTaskCounts), old(context.objects), old(context.order),
                            offsets, |offsets|)
      ensures offsets != [] ==> Refreshed(now, fetchFails)
    {
      ghost var list0 := tasksForSelectedDate;
      ghost var counts0 := dailyTaskCounts;
      ghost var objects0 := context.objects;
      ghost var order0 := context.order;
      NothingDeletedYet(offsets);
      var k := 0;
      while k < |offsets|
        invariant Valid()
        invariant DeletedInTurn(list0, counts0, objects0, order0, offsets, k)
        invariant k > 0 ==> ListedToday(taskVM.tasks, context.order, context.objects, now, fetchFails)
      {
        DeleteNext(offsets, k, now, fetchFails, list0, counts0, objects0, order0);
        k := k + 1;
      }
    }
  }

  /** The loop of `fetchMonthlyTaskCounts` over the fetched tasks. */
  method CountByDay(recs: map<ObjectId, Task>, tasks: seq<ObjectId>) returns (counts: map<int, int>)
    requires AllIn(tasks, recs)
    ensures counts == Tally(recs, tasks)
    ensures forall d :: Badge(counts, d) == CountOn(recs, tasks, d)
  {
    counts := map[];
    var i := 0;
    while i < |tasks|
      invariant 0 <= i <= |tasks|
      invariant AllIn(tasks[..i], recs)
      invariant counts == Tally(recs, tasks[..i])
    {
      assert tasks[..i + 1][..i] == tasks[..i];
      var t := recs[tasks[i]];
      if t.startTime.Some? {
        var dayOnly := StartOfDay(t.startTime.value);
        counts := counts[dayOnly := Badge(counts, dayOnly) + 1];
      }
      i := i + 1;
    }
    assert tasks[..|tasks|] == tasks;
    TallyCounts(recs, tasks);
  }

  /** A row still in the list after some removals is one of the original rows
      and, when the rows were distinct, was not removed. */
  lemma StillListed(list: seq<ObjectId>, offsets: seq<int>, x: ObjectId)
    requires RemovableInTurn(list, offsets) && Distinct(list)
    requires x in RemainingInTurn(list, offsets)
    ensures x in list && x !in RemovedInTurn(list, offsets)
  {
    var rest := RemainingInTurn(list, offsets);
    var removed := RemovedInTurn(list, offsets);
    RemovedInTurnParts(list, offsets);
    assert x in multiset(rest);
    TaskOrdering.CountAtMostOne(list, x);
    assert multiset(rest)[x] + multiset(removed)[x] == multiset(list)[x];
    assert x in multiset(list);
  }
}
