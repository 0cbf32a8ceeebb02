/** The view model of `Tasks/TaskViewModel.swift`: the published task list,
    the congratulation banner, and the operations that fetch, change status
    and priority, delete, reorder (keeping pinned tasks on top) and reschedule
    tasks. The clock (`Date()`) is the parameter `now`, and whether a fetch
    throws is the parameter `fetchFails`. */
module TasksTaskViewModel {
  import opened TaskRecords
  import opened Days
  import opened TaskOrdering
  import ListMove

  // ---------------------------------------------------------------------
  // Fetching

  predicate StartsIn(t: Task, lo: int, hi: int) {
    t.startTime.Some? && lo <= t.startTime.value < hi
  }

  /** `fetchTasks()`: every task, sorted by the descriptors (priorityRank,
      sortIndex) and then re-sorted so that "Done" tasks go last. */
  function FetchAll(order: seq<ObjectId>, recs: map<ObjectId, Task>): (r: seq<ObjectId>)
    requires AllIn(order, recs)
    ensures multiset(r) == multiset(order)
    ensures AllIn(r, recs) && SortedBy(DoneLast, recs, r)
  {
    Sort(DoneLast, recs, Sort(RankThenIndex, recs, order))
  }

  /** `fetchTodayTasks()` at instant `now`: the tasks whose start time lies in
      [start of today, start of tomorrow), with no status filter, ordered
      like `FetchAll`. */
  function FetchToday(order: seq<ObjectId>, recs: map<ObjectId, Task>, now: int): (r: seq<ObjectId>)
    requires AllIn(order, recs)
    ensures forall id :: id in r <==> id in order && StartsIn(recs[id], StartOfDay(now), StartOfDay(now) + SecondsPerDay)
    ensures Distinct(order) ==> Distinct(r)
    ensures AllIn(r, recs) && SortedBy(DoneLast, recs, r)
  {
    var start := StartOfDay(now);
    var today := FilterIds(order, recs, (t: Task) => StartsIn(t, start, start + SecondsPerDay));
    var r := Sort(DoneLast, recs, Sort(RankThenIndex, recs, today));
    assert forall id :: id in r <==> id in multiset(today);
    if Distinct(order) then
      PermutationDistinct(today, r);
      r
    else
      r
  }

  /** Being in today's list is starting on the same calendar day as `now`. */
  lemma FetchTodaySameDay(order: seq<ObjectId>, recs: map<ObjectId, Task>, now: int, id: ObjectId)
    requires AllIn(order, recs)
    ensures id in FetchToday(order, recs, now) <==>
      id in order && recs[id].startTime.Some? && SameDay(recs[id].startTime.value, now)
  {
    if id in order && recs[id].startTime.Some? {
      var st := recs[id].startTime.value;
      var d := StartOfDay(now);
      if d <= st < d + SecondsPerDay {
        StartOfDayUnique(st, d);
      }
    }
  }

  // ---------------------------------------------------------------------
  // Status

  /** The record after `setTaskStatus(_:to:)` at `now`. The new status is
      always stored; the in-progress stamp is set exactly when the task enters
      "InProgress" from another status (a missing status reads as ""). */
  function WithStatus(t: Task, newStatus: string, now: int): (r: Task)
    ensures r.status == Some(newStatus)
    ensures OrEmpty(t.status) != "InProgress" && newStatus == "InProgress" ==> r.inProgressStartTime == Some(now)
    ensures !(OrEmpty(t.status) != "InProgress" && newStatus == "InProgress") ==> r.inProgressStartTime == t.inProgressStartTime
    ensures r.(status := t.status, inProgressStartTime := t.inProgressStartTime) == t
  {
    var s := t.(status := Some(newStatus));
    if OrEmpty(t.status) != "InProgress" && newStatus == "InProgress" then
      s.(inProgressStartTime := Some(now))
    else
      s
  }

  /** The banner is raised on "InProgress" to "Done" when a stamp exists and
      the hours elapsed since it reach the allocated hours
      (`elapsed / 3600 >= timeAllocated`, with minutes here). */
  predicate EarnsCongrats(t: Task, newStatus: string, now: int) {
    OrEmpty(t.status) == "InProgress" && newStatus == "Done" &&
    t.inProgressStartTime.Some? &&
    now - t.inProgressStartTime.value >= t.timeAllocated * 60
  }

  function CongratsMessage(t: Task): string {
    "Great job completing '" + (if t.title.Some? then t.title.value else "Untitled") + "'!"
  }

  /** Choosing "InProgress" again keeps the stamp of the first choice. */
  lemma ReselectKeepsStamp(t: Task, first: int, later: int)
    ensures WithStatus(WithStatus(t, "InProgress", first), "InProgress", later) ==
            WithStatus(t, "InProgress", first)
  {
  }

  /** A task started at `t0` with one hour allocated and finished 70 minutes
      later earns the banner; finished after 50 minutes it does not. */
  lemma OneHourScenario(t: Task, t0: int)
    requires t.status == Some("") && t.timeAllocated == 60
    ensures var started := WithStatus(t, "InProgress", t0);
            EarnsCongrats(started, "Done", t0 + 70 * 60) &&
            !EarnsCongrats(started, "Done", t0 + 50 * 60)
  {
  }

  /** Starting from a task that is not in progress, finishing it at `finish`
      earns the banner exactly when the status chosen before, at `start`, was
      "InProgress" and the allocated time has passed since then; choosing
      "InProgress" once more in between does not restart the clock. With
      `SetTaskStatus`, which raises the banner exactly on `EarnsCongrats`,
      this is when the banner can appear. */
  lemma CongratsAfterStart(t: Task, s: string, start: int, later: int, finish: int)
    requires OrEmpty(t.status) != "InProgress"
    ensures EarnsCongrats(WithStatus(t, s, start), "Done", finish) <==>
            s == "InProgress" && finish - start >= t.timeAllocated * 60
    ensures EarnsCongrats(WithStatus(WithStatus(t, "InProgress", start), "InProgress", later), "Done", finish) <==>
            finish - start >= t.timeAllocated * 60
  {
    ReselectKeepsStamp(t, start, later);
  }

  // ---------------------------------------------------------------------
  // Reordering with pinned tasks on top

  /** Tasks holding a priority (rank below 3), by rank and then sortIndex. */
  function Pinned(recs: map<ObjectId, Task>, tasks: seq<ObjectId>): (r: seq<ObjectId>)
    requires AllIn(tasks, recs)
    ensures AllIn(r, recs) && SortedBy(RankThenIndex, recs, r)
    ensures forall id :: id in r <==> id in tasks && recs[id].priorityRank < 3
    ensures Distinct(tasks) ==> Distinct(r)
  {
    var f := FilterIds(tasks, recs, (t: Task) => t.priorityRank < 3);
    var r := Sort(RankThenIndex, recs, f);
    assert forall id :: id in r <==> id in multiset(f);
    if Distinct(tasks) then PermutationDistinct(f, r); r else r
  }

  /** Tasks of rank exactly 3, by sortIndex. */
  function Unpinned(recs: map<ObjectId, Task>, tasks: seq<ObjectId>): (r: seq<ObjectId>)
    requires AllIn(tasks, recs)
    ensures AllIn(r, recs) && SortedBy(IndexOnly, recs, r)
    ensures forall id :: id in r <==> id in tasks && recs[id].priorityRank == 3
    ensures Distinct(tasks) ==> Distinct(r)
  {
    var f := FilterIds(tasks, recs, (t: Task) => t.priorityRank == 3);
    var r := Sort(IndexOnly, recs, f);
    assert forall id :: id in r <==> id in multiset(f);
    if Distinct(tasks) then PermutationDistinct(f, r); r else r
  }

  /** The guard: a non-empty source whose smallest offset and the destination
      are both outside the pinned prefix. */
  predicate MoveAccepted(pinnedCount: int, source: set<int>, destination: int) {
    source != {} && (forall i :: i in source ==> i >= pinnedCount) && destination >= pinnedCount
  }

  function Shift(source: set<int>, offset: int): set<int> {
    set i | i in source :: i - offset
  }

  /** What the code needs of an accepted move so that it does not trap: the
      shifted offsets fit the unpinned list, and every position fits `Int16`. */
  predicate MoveWellFormed(recs: map<ObjectId, Task>, tasks: seq<ObjectId>, source: set<int>, destination: int)
    requires AllIn(tasks, recs)
  {
    var p := |Pinned(recs, tasks)|;
    var u := |Unpinned(recs, tasks)|;
    MoveAccepted(p, source, destination) ==>
      ListMove.ValidMove(u, Shift(source, p), destination - p) && p + u <= Int16Max + 1
  }

  /** `pinned + unpinned` after the unpinned list has been moved by the
      offsets and destination shifted past the pinned prefix. */
  function Reordered(pinned: seq<ObjectId>, unpinned: seq<ObjectId>, source: set<int>, destination: int): seq<ObjectId>
    requires ListMove.ValidMove(|unpinned|, Shift(source, |pinned|), destination - |pinned|)
  {
    pinned + ListMove.Move(unpinned, Shift(source, |pinned|), destination - |pinned|)
  }

  /** The order `moveTasks` writes for the listed tasks. */
  function NewOrder(recs: map<ObjectId, Task>, tasks: seq<ObjectId>, source: set<int>, destination: int): seq<ObjectId>
    requires AllIn(tasks, recs) && MoveWellFormed(recs, tasks, source, destination)
    requires MoveAccepted(|Pinned(recs, tasks)|, source, destination)
  {
    Reordered(Pinned(recs, tasks), Unpinned(recs, tasks), source, destination)
  }

  /** Reordering two disjoint lists without repeats keeps their elements and
      repeats none. */
  lemma ReorderedElements(pinned: seq<ObjectId>, unpinned: seq<ObjectId>, source: set<int>, destination: int)
    requires ListMove.ValidMove(|unpinned|, Shift(source, |pinned|), destination - |pinned|)
    requires Distinct(pinned) && Distinct(unpinned) && (forall x :: x in pinned ==> x !in unpinned)
    ensures forall x :: x in Reordered(pinned, unpinned, source, destination) <==> x in pinned || x in unpinned
    ensures Distinct(Reordered(pinned, unpinned, source, destination))
  {
    var p := |pinned|;
    var moved := ListMove.Move(unpinned, Shift(source, p), destination - p);
    MovedSameElements(unpinned, Shift(source, p), destination - p);
    var n := pinned + moved;
    forall i, j | 0 <= i < j < |n| ensures n[i] != n[j] {
      if j < p {
        assert n[i] == pinned[i] && n[j] == pinned[j];
      } else if i >= p {
        assert n[i] == moved[i - p] && n[j] == moved[j - p];
      } else {
        assert n[i] == pinned[i] && n[i] in pinned;
        assert n[j] == moved[j - p] && n[j] in moved;
      }
    }
  }

  /** A move keeps the elements, and keeps a list without repeats so. */
  lemma MovedSameElements(s: seq<ObjectId>, moved: set<int>, dest: int)
    requires ListMove.ValidMove(|s|, moved, dest)
    ensures forall x :: x in ListMove.Move(s, moved, dest) <==> x in s
    ensures Distinct(s) ==> Distinct(ListMove.Move(s, moved, dest))
  {
    var r := ListMove.Move(s, moved, dest);
    ListMove.MovePermutes(s, moved, dest);
    assert forall x :: x in r <==> x in multiset(s);
    if Distinct(s) {
      PermutationDistinct(s, r);
    }
  }

  /** The new order is made of the listed tasks, once each, and leaves out
      exactly those whose rank is above 3; when every rank is at most 3
      (as `updatePriority` keeps it) no task is added or lost. */
  lemma NewOrderPermutes(recs: map<ObjectId, Task>, tasks: seq<ObjectId>, source: set<int>, destination: int)
    requires AllIn(tasks, recs) && Distinct(tasks) && MoveWellFormed(recs, tasks, source, destination)
    requires MoveAccepted(|Pinned(recs, tasks)|, source, destination)
    ensures var n := NewOrder(recs, tasks, source, destination);
            AllIn(n, recs) && Distinct(n) &&
            (forall id :: id in n <==> id in tasks && recs[id].priorityRank <= 3)
    ensures (forall id :: id in tasks ==> recs[id].priorityRank <= 3) ==>
            multiset(NewOrder(recs, tasks, source, destination)) == multiset(tasks)
  {
    var pinned := Pinned(recs, tasks);
    var unpinned := Unpinned(recs, tasks);
    ReorderedElements(pinned, unpinned, source, destination);
    var n := NewOrder(recs, tasks, source, destination);
    if forall id :: id in tasks ==> recs[id].priorityRank <= 3 {
      DistinctSameElements(n, tasks);
    }
  }

  /** Two sequences without repeats and with the same elements are
      permutations of each other. */
  lemma DistinctSameElements(a: seq<ObjectId>, b: seq<ObjectId>)
    requires Distinct(a) && Distinct(b) && (forall x :: x in a <==> x in b)
    ensures multiset(a) == multiset(b)
  {
    forall x ensures multiset(a)[x] == multiset(b)[x] {
      CountAtMostOne(a, x);
      CountAtMostOne(b, x);
      assert x in a <==> x in multiset(a);
      assert x in b <==> x in multiset(b);
    }
  }

  /** The store after the loop that writes `sortIndex = i` for the i-th
      element of `ids`, for the first `n` elements. */
  function WriteIndices(recs: map<ObjectId, Task>, ids: seq<ObjectId>, n: int): (w: map<ObjectId, Task>)
    requires 0 <= n <= |ids| && AllIn(ids, recs)
    ensures w.Keys == recs.Keys
  {
    if n == 0 then recs
    else
      var w := WriteIndices(recs, ids, n - 1);
      w[ids[n - 1] := w[ids[n - 1]].(sortIndex := n - 1)]
  }

  /** The loop `for (i, task) in list.enumerated() { task.sortIndex =
      Int16(i) }` over the records, with the conversion's range checked by
      the callers. */
  method Renumber(recs: map<ObjectId, Task>, ids: seq<ObjectId>) returns (w: map<ObjectId, Task>)
    requires AllIn(ids, recs)
    ensures w == WriteIndices(recs, ids, |ids|)
  {
    w := recs;
    var i := 0;
    while i < |ids|
      invariant 0 <= i <= |ids|
      invariant w == WriteIndices(recs, ids, i)
    {
      var id := ids[i];
      w := w[id := w[id].(sortIndex := i)];
      i := i + 1;
    }
  }

  /** After the loop, the i-th task has sortIndex i and nothing else changed;
      every task the loop does not visit is untouched. */
  lemma {:induction false} WriteIndicesAt(recs: map<ObjectId, Task>, ids: seq<ObjectId>, n: int)
    requires 0 <= n <= |ids| && AllIn(ids, recs) && Distinct(ids)
    ensures forall i :: 0 <= i < n ==> WriteIndices(recs, ids, n)[ids[i]] == recs[ids[i]].(sortIndex := i)
    ensures forall id :: id in recs && id !in ids[..n] ==> WriteIndices(recs, ids, n)[id] == recs[id]
  {
    if n > 0 {
      WriteIndicesAt(recs, ids, n - 1);
      assert ids[..n] == ids[..n - 1] + [ids[n - 1]];
      forall i | 0 <= i < n - 1 ensures ids[i] != ids[n - 1] { }
    }
  }

  /** After an accepted move, the (priorityRank, sortIndex) keys of the new
      order strictly increase: pinned tasks get 0 through p-1 in their old
      (rank, sortIndex) order, the unpinned ones p onwards in their moved
      order, so a fetch sorted by those keys alone returns exactly the new
      order. `AcceptedMoveFetchedToday` adds the "Done"-last sort. */
  lemma AcceptedMoveIsFetchOrder(recs: map<ObjectId, Task>, tasks: seq<ObjectId>, source: set<int>, destination: int)
    requires AllIn(tasks, recs) && Distinct(tasks) && MoveWellFormed(recs, tasks, source, destination)
    requires MoveAccepted(|Pinned(recs, tasks)|, source, destination)
    ensures var n := NewOrder(recs, tasks, source, destination);
            AllIn(n, recs) && StrictlySortedBy(RankThenIndex, WriteIndices(recs, n, |n|), n)
    ensures var n := NewOrder(recs, tasks, source, destination);
            var w := WriteIndices(recs, n, |n|);
            forall s :: AllIn(s, w) && multiset(s) == multiset(n) ==> Sort(RankThenIndex, w, s) == n
  {
    NewOrderPermutes(recs, tasks, source, destination);
    ReindexedStrictlySorted(recs, Pinned(recs, tasks), Unpinned(recs, tasks), source, destination);
    var n := NewOrder(recs, tasks, source, destination);
    var w := WriteIndices(recs, n, |n|);
    forall s | AllIn(s, w) && multiset(s) == multiset(n) ensures Sort(RankThenIndex, w, s) == n {
      SortRestores(RankThenIndex, w, s, n);
    }
  }

  /** The numbering loop changes only sortIndex, so start times and statuses
      are as before. */
  lemma WriteIndicesKeepsFields(recs: map<ObjectId, Task>, ids: seq<ObjectId>)
    requires AllIn(ids, recs) && Distinct(ids)
    ensures var w := WriteIndices(recs, ids, |ids|);
            forall id :: id in recs ==> w[id].startTime == recs[id].startTime && w[id].status == recs[id].status
  {
    var w := WriteIndices(recs, ids, |ids|);
    WriteIndicesAt(recs, ids, |ids|);
    assert ids[..|ids|] == ids;
    forall id | id in recs ensures w[id].startTime == recs[id].startTime && w[id].status == recs[id].status {
      if id in ids {
        var i :| 0 <= i < |ids| && ids[i] == id;
      }
    }
  }

  /** A list whose (priorityRank, sortIndex) keys strictly increase and
      which holds exactly today's tasks is fetched by `fetchTodayTasks()` as
      its open tasks followed by its "Done" tasks, each group in the list's
      order; with no "Done" task, as the list itself. Only the contract of
      `FetchToday` is used, so this holds for any tie-break of its sorts. */
  lemma FetchTodayOfStrict(order: seq<ObjectId>, recs: map<ObjectId, Task>, now: int, n: seq<ObjectId>)
    requires AllIn(order, recs) && Distinct(order) && AllIn(n, recs) && Distinct(n)
    requires forall id :: id in n <==> id in order && StartsIn(recs[id], StartOfDay(now), StartOfDay(now) + SecondsPerDay)
    requires StrictlySortedBy(RankThenIndex, recs, n)
    ensures FetchToday(order, recs, now) == Group(recs, n, false) + Group(recs, n, true)
    ensures (forall id :: id in n ==> !IsDone(recs[id])) ==> FetchToday(order, recs, now) == n
  {
    var r := FetchToday(order, recs, now);
    DistinctSameElements(r, n);
    var o, d := Group(recs, n, false), Group(recs, n, true);
    GroupStrictlySorted(RankThenIndex, recs, n, false);
    GroupStrictlySorted(RankThenIndex, recs, n, true);
    GroupMembers(recs, n, false);
    GroupMembers(recs, n, true);
    GroupsPartition(recs, n);
    DoneGroupsLast(recs, o, d);
    SortedPermutationUnique(DoneLast, recs, r, o + d);
    if forall id :: id in n ==> !IsDone(recs[id]) {
      GroupsWithoutDone(recs, n);
    }
  }

  /** After an accepted move of today's tasks, all of rank at most 3, the
      renumbered new order holds exactly today's tasks. */
  lemma MovedTodayMembers(order: seq<ObjectId>, recs: map<ObjectId, Task>, tasks: seq<ObjectId>,
                          source: set<int>, destination: int, lo: int, hi: int)
    requires AllIn(order, recs)
    requires AllIn(tasks, recs) && Distinct(tasks) && MoveWellFormed(recs, tasks, source, destination)
    requires MoveAccepted(|Pinned(recs, tasks)|, source, destination)
    requires forall id :: id in tasks <==> id in order && StartsIn(recs[id], lo, hi)
    requires forall id :: id in tasks ==> recs[id].priorityRank <= 3
    ensures var n := NewOrder(recs, tasks, source, destination);
            AllIn(n, recs) && Distinct(n) &&
            var w := WriteIndices(recs, n, |n|);
            AllIn(order, w) && forall id :: id in n <==> id in order && StartsIn(w[id], lo, hi)
  {
    NewOrderPermutes(recs, tasks, source, destination);
    var n := NewOrder(recs, tasks, source, destination);
    WriteIndicesKeepsFields(recs, n);
    SameStartsSameMembers(order, recs, WriteIndices(recs, n, |n|), tasks, n, lo, hi);
  }

  /** Lists defined by membership stay the same when only fields other than
      the start time change. */
  lemma SameStartsSameMembers(order: seq<ObjectId>, recs: map<ObjectId, Task>, w: map<ObjectId, Task>,
                              tasks: seq<ObjectId>, n: seq<ObjectId>, lo: int, hi: int)
    requires AllIn(order, recs) && w.Keys == recs.Keys
    requires forall id :: id in recs ==> w[id].startTime == recs[id].startTime
    requires forall id :: id in tasks <==> id in order && StartsIn(recs[id], lo, hi)
    requires forall id :: id in tasks ==> recs[id].priorityRank <= 3
    requires forall id :: id in n <==> id in tasks && recs[id].priorityRank <= 3
    ensures AllIn(order, w) && forall id :: id in n <==> id in order && StartsIn(w[id], lo, hi)
  {
    forall id ensures id in n <==> id in order && StartsIn(w[id], lo, hi) {
      if id in order {
        assert StartsIn(w[id], lo, hi) == StartsIn(recs[id], lo, hi);
      }
    }
  }

  /** What `fetchTodayTasks()` returns after an accepted move of today's
      tasks, when every rank is at most 3: the open tasks of the new order
      followed by its "Done" tasks, each group in the new order. With no
      "Done" task, that is the new order itself. */
  lemma AcceptedMoveFetchedToday(order: seq<ObjectId>, recs: map<ObjectId, Task>, tasks: seq<ObjectId>,
                                 source: set<int>, destination: int, now: int)
    requires AllIn(order, recs) && Distinct(order)
    requires AllIn(tasks, recs) && Distinct(tasks) && MoveWellFormed(recs, tasks, source, destination)
    requires MoveAccepted(|Pinned(recs, tasks)|, source, destination)
    requires forall id :: id in tasks <==> id in order && StartsIn(recs[id], StartOfDay(now), StartOfDay(now) + SecondsPerDay)
    requires forall id :: id in tasks ==> recs[id].priorityRank <= 3
    ensures var n := NewOrder(recs, tasks, source, destination);
            AllIn(n, recs) &&
            var w := WriteIndices(recs, n, |n|);
            AllIn(order, w) &&
            FetchToday(order, w, now) == Group(w, n, false) + Group(w, n, true) &&
            ((forall id :: id in n ==> !IsDone(recs[id])) ==> FetchToday(order, w, now) == n)
  {
    var start := StartOfDay(now);
    MovedTodayMembers(order, recs, tasks, source, destination, start, start + SecondsPerDay);
    AcceptedMoveIsFetchOrder(recs, tasks, source, destination);
    var n := NewOrder(recs, tasks, source, destination);
    var w := WriteIndices(recs, n, |n|);
    FetchTodayOfStrict(order, w, now, n);
    WriteIndicesKeepsFields(recs, n);
  }

  /** Writing positions as sortIndex over a (rank, sortIndex)-sorted block of
      ranks below 3 followed by a moved block of rank 3 makes the keys
      strictly increase. */
  lemma ReindexedStrictlySorted(recs: map<ObjectId, Task>, pinned: seq<ObjectId>, unpinned: seq<ObjectId>, source: set<int>, destination: int)
    requires ListMove.ValidMove(|unpinned|, Shift(source, |pinned|), destination - |pinned|)
    requires AllIn(pinned, recs) && AllIn(unpinned, recs)
    requires Distinct(Reordered(pinned, unpinned, source, destination))
    requires SortedBy(RankThenIndex, recs, pinned)
    requires forall id :: id in pinned ==> recs[id].priorityRank < 3
    requires forall id :: id in unpinned ==> recs[id].priorityRank == 3
    ensures var n := Reordered(pinned, unpinned, source, destination);
            AllIn(n, recs) && AllIn(n, WriteIndices(recs, n, |n|)) &&
            StrictlySortedBy(RankThenIndex, WriteIndices(recs, n, |n|), n)
  {
    var p := |pinned|;
    var moved := ListMove.Move(unpinned, Shift(source, p), destination - p);
    MovedSameElements(unpinned, Shift(source, p), destination - p);
    var n := pinned + moved;
    assert n == Reordered(pinned, unpinned, source, destination);
    var w := WriteIndices(recs, n, |n|);
    WriteIndicesAt(recs, n, |n|);
    forall i, j | 0 <= i < j < |n| ensures Precedes(RankThenIndex, w[n[i]], w[n[j]]) {
      assert w[n[i]] == recs[n[i]].(sortIndex := i);
      assert w[n[j]] == recs[n[j]].(sortIndex := j);
      if j < p {
        assert n[i] == pinned[i] && n[j] == pinned[j];
      } else if i < p {
        assert n[i] == pinned[i] && n[i] in pinned;
        assert n[j] == moved[j - p] && n[j] in moved;
      } else {
        assert n[i] == moved[i - p] && n[i] in moved;
        assert n[j] == moved[j - p] && n[j] in moved;
      }
    }
  }

  // ---------------------------------------------------------------------
  // Rescheduling

  /** The new start time: the new date's day at the old hour and minute with
      seconds 0, or the new date itself when there was no old start time. */
  function RescheduledStart(oldStart: Option<int>, newDate: int): (r: int)
    ensures oldStart.Some? ==>
      SameDay(r, newDate) && MinuteOfDay(r) == MinuteOfDay(oldStart.value) && r % 60 == 0
    ensures oldStart.None? ==> r == newDate
  {
    match oldStart
    case None => newDate
    case Some(o) =>
      var d := StartOfDay(newDate);
      var m := MinuteOfDay(o);
      MinuteStart(d, m);
      d + m * 60
  }

  /** The instant `m` whole minutes after the midnight `d` lies on that day,
      at minute `m`, with seconds 0. */
  lemma MinuteStart(d: int, m: int)
    requires d % SecondsPerDay == 0 && 0 <= m < 1440
    ensures StartOfDay(d + m * 60) == d && MinuteOfDay(d + m * 60) == m && (d + m * 60) % 60 == 0
  {
    var t := d + m * 60;
    StartOfDayUnique(t, d);
    var k := 1440 * (d / SecondsPerDay) + m;
    assert t == 60 * k;
  }

  /** Day, minute of day and "seconds are 0" pin down one instant, so the
      contract of `RescheduledStart` determines it. */
  lemma RescheduledStartUnique(oldStart: int, newDate: int, r: int)
    requires SameDay(r, newDate) && MinuteOfDay(r) == MinuteOfDay(oldStart) && r % 60 == 0
    ensures r == RescheduledStart(Some(oldStart), newDate)
  {
    var q := RescheduledStart(Some(oldStart), newDate);
    var d := StartOfDay(newDate);
    var m := 1440 * (d / SecondsPerDay);
    assert d == 60 * m;
    SecondsInDay(d, m, r);
    SecondsInDay(d, m, q);
  }

  /** An instant of the day starting at `d`, a whole minute, is `d` plus
      sixty times its minute of the day. */
  lemma SecondsInDay(d: int, m: int, t: int)
    requires d == 60 * m && StartOfDay(t) == d && t % 60 == 0
    ensures t == d + 60 * MinuteOfDay(t)
  {
    var x := t - d;
    assert x == t % SecondsPerDay;
    var a, b := x / 60, x % 60;
    assert x == 60 * a + b && 0 <= b < 60;
    assert t == 60 * (m + a) + b;
    WholeMinutes(m + a, b, t);
  }

  /** The remainder by 60 of `60 * k + b`, `0 <= b < 60`, is `b`. */
  lemma WholeMinutes(k: int, b: int, t: int)
    requires t == 60 * k + b && 0 <= b < 60
    ensures t % 60 == b
  {
    var e := t / 60 - k;
    assert 60 * e == b - t % 60;
  }

  // ---------------------------------------------------------------------
  // The view model

  class TaskViewModel {
    var tasks: seq<ObjectId>
    var showCongratsBanner: bool
    var congratsMessage: string
    const context: Context

    ghost predicate Valid()
      reads this, context
    {
      context.Valid() && Distinct(tasks)
    }

    constructor (context: Context)
      requires context.Valid()
      ensures Valid() && this.context == context
      ensures tasks == [] && !showCongratsBanner && congratsMessage == ""
    {
      this.context := context;
      tasks := [];
      showCongratsBanner := false;
      congratsMessage := "";
    }

    method FetchTasks(fetchFails: bool)
      requires Valid()
      modifies this`tasks
      ensures Valid()
      ensures tasks == if fetchFails then [] else FetchAll(context.order, context.objects)
    {
      if fetchFails {
        tasks := [];
      } else {
        tasks := FetchAll(context.order, context.objects);
        PermutationDistinct(context.order, tasks);
      }
    }

    method FetchTodayTasks(now: int, fetchFails: bool)
      requires Valid()
      modifies this`tasks
      ensures Valid()
      ensures tasks == if fetchFails then [] else FetchToday(context.order, context.objects, now)
    {
      if fetchFails {
        tasks := [];
      } else {
        tasks := FetchToday(context.order, context.objects, now);
      }
    }

    method SetTaskStatus(id: ObjectId, newStatus: string, now: int, fetchFails: bool)
      requires Valid() && id in context.objects
      modifies this, context
      ensures Valid() && context.order == old(context.order)
      ensures context.objects == old(context.objects)[id := WithStatus(old(context.objects[id]), newStatus, now)]
      ensures EarnsCongrats(old(context.objects[id]), newStatus, now) ==>
        showCongratsBanner && congratsMessage == CongratsMessage(old(context.objects[id]))
      ensures !EarnsCongrats(old(context.objects[id]), newStatus, now) ==>
        showCongratsBanner == old(showCongratsBanner) && congratsMessage == old(congratsMessage)
      ensures tasks == if fetchFails then [] else FetchToday(context.order, context.objects, now)
    {
      var task := context.objects[id];
      var oldStatus := OrEmpty(task.status);
      task := task.(status := Some(newStatus));
      if oldStatus != "InProgress" && newStatus == "InProgress" {
        task := task.(inProgressStartTime := Some(now));
      }
      if oldStatus == "InProgress" && newStatus == "Done" {
        if task.inProgressStartTime.Some? {
          var elapsed := now - task.inProgressStartTime.value;
          if elapsed >= task.timeAllocated * 60 {
            showCongratsBanner := true;
            congratsMessage := CongratsMessage(task);
          }
        }
      }
      context.objects := context.objects[id := task];
      FetchTodayTasks(now, fetchFails);
    }

    method UpdatePriority(id: ObjectId, symbol: string, now: int, fetchFails: bool)
      requires Valid() && id in context.objects
      modifies this`tasks, context
      ensures Valid() && context.order == old(context.order)
      ensures context.objects == old(context.objects)[id := WithPriority(old(context.objects[id]), symbol)]
      ensures tasks == if fetchFails then [] else FetchToday(context.order, context.objects, now)
    {
      context.objects := context.objects[id := WithPriority(context.objects[id], symbol)];
      FetchTodayTasks(now, fetchFails);
    }

    method DeleteTask(id: ObjectId, now: int, fetchFails: bool)
      requires Valid()
      modifies this`tasks, context
      ensures Valid()
      ensures context.order == Without(old(context.order), id)
      ensures context.objects == old(context.objects) - {id}
      ensures tasks == if fetchFails then [] else FetchToday(context.order, context.objects, now)
    {
      context.Delete(id);
      FetchTodayTasks(now, fetchFails);
    }

    /** The loop of `moveTasks` that stores each task's position in
      `newOrder` as its sortIndex. */
    method WriteSortIndices(newOrder: seq<ObjectId>)
      requires context.Valid() && AllIn(newOrder, context.objects)
      modifies context
      ensures context.Valid() && context.order == old(context.order)
      ensures context.objects == WriteIndices(old(context.objects), newOrder, |newOrder|)
    {
      var objects := Renumber(context.objects, newOrder);
      context.objects := objects;
      assert context.objects.Keys == old(context.objects).Keys;
    }

    /** `moveTasks(from:to:)`. A rejected move writes nothing and does not
      refresh the list. */
    method MoveTasks(source: set<int>, destination: int, now: int, fetchFails: bool)
      requires Valid() && AllIn(tasks, context.objects)
      requires MoveWellFormed(context.objects, tasks, source, destination)
      modifies this`tasks, context
      ensures Valid() && context.order == old(context.order)
      ensures !MoveAccepted(|Pinned(old(context.objects), old(tasks))|, source, destination) ==>
        context.objects == old(context.objects) && tasks == old(tasks)
      ensures MoveAccepted(|Pinned(old(context.objects), old(tasks))|, source, destination) ==>
        var n := NewOrder(old(context.objects), old(tasks), source, destination);
        AllIn(n, old(context.objects)) &&
        context.objects == WriteIndices(old(context.objects), n, |n|) &&
        tasks == if fetchFails then [] else FetchToday(context.order, context.objects, now)
    {
      var pinned := Pinned(context.objects, tasks);
      var unpinned := Unpinned(context.objects, tasks);
      if !MoveAccepted(|pinned|, source, destination) {
        return;
      }
      NewOrderPermutes(context.objects, tasks, source, destination);
      var newOrder := Reordered(pinned, unpinned, source, destination);
      WriteSortIndices(newOrder);
      FetchTodayTasks(now, fetchFails);
    }

    /** `rescheduleTask(with:to:)`: a URI that names no live object changes
      nothing; otherwise only the task's start time changes. */
    method RescheduleTask(uri: ObjectId, newDate: int)
      requires Valid()
      modifies context
      ensures Valid() && context.order == old(context.order)
      ensures uri !in old(context.objects) ==> context.objects == old(context.objects)
      ensures uri in old(context.objects) ==>
        context.objects == old(context.objects)[uri :=
          old(context.objects[uri]).(startTime := Some(RescheduledStart(old(context.objects[uri]).startTime, newDate)))]
    {
      if uri in context.objects {
        var task := context.objects[uri];
        context.objects := context.objects[uri := task.(startTime := Some(RescheduledStart(task.startTime, newDate)))];
      }
    }
  }
}
