/** The new-task sheet of `Views/AddTaskView.swift`: "Save" inserts one task
    with the typed title and description, an empty status, and the store's
    task count as its sortIndex, so that it sorts after the tasks already
    numbered. Saving is a no-op here and dismissing the sheet is left out. */
module AddTaskView {
  import opened TaskRecords
  import opened TaskOrdering
  import ViewsTaskViewModel

  /** The status a new task is given. */
  const DefaultStatus := ""

  class AddTaskView {
    var title: string
    var desc: string
    const context: Context

    ghost predicate Valid()
      reads context
    {
      context.Valid()
    }

    /** The sheet with the text the user typed into its two fields. */
    constructor (context: Context, title: string, desc: string)
      requires context.Valid()
      ensures Valid() && this.context == context
      ensures this.title == title && this.desc == desc
    {
      this.context := context;
      this.title := title;
      this.desc := desc;
    }

    /** `addTask`: the object is registered on creation, its fields are set
      one by one, and the count taken for sortIndex already includes it. A
      failed count gives 0. `Int16(count)` traps above 32767. The title is
      stored as typed, empty or not. */
    method AddTask(newId: ObjectId, countFails: bool)
      requires Valid() && newId !in context.objects
      requires countFails || |context.order| + 1 <= Int16Max
      modifies context
      ensures Valid()
      ensures context.order == old(context.order) + [newId]
      ensures context.objects.Keys == old(context.objects).Keys + {newId}
      ensures forall id :: id in old(context.objects) ==> context.objects[id] == old(context.objects[id])
      ensures var t := context.objects[newId];
        t.title == Some(title) && t.desc == Some(desc) && t.status == Some(DefaultStatus) &&
        t.sortIndex == (if countFails then 0 else |context.order|) &&
        t == DefaultTask().(title := t.title, desc := t.desc, status := t.status, sortIndex := t.sortIndex)
    {
      context.Insert(newId, DefaultTask());
      var newTask := context.objects[newId];
      newTask := newTask.(title := Some(title));
      newTask := newTask.(desc := Some(desc));
      newTask := newTask.(status := Some(DefaultStatus));
      var count := if countFails then 0 else |context.order|;
      newTask := newTask.(sortIndex := count);
      context.Update(context.objects[newId := newTask]);
    }
  }

  /** "Place new task at bottom of the list": when every earlier task has a
      rank the code writes (0 to 3) and a sortIndex below the count, the task
      just added with the count as sortIndex is the last one the view model's
      fetch lists. */
  lemma NewTaskListedLast(order: seq<ObjectId>, recs: map<ObjectId, Task>)
    requires AllIn(order, recs) && Distinct(order) && order != []
    requires recs[order[|order| - 1]].priorityRank == 3
    requires recs[order[|order| - 1]].sortIndex == |order|
    requires forall i :: 0 <= i < |order| - 1 ==>
      recs[order[i]].priorityRank <= 3 && recs[order[i]].sortIndex < |order|
    ensures var s := ViewsTaskViewModel.FetchOrder(order, recs);
      |s| == |order| && s[|s| - 1] == order[|order| - 1]
  {
    var s := ViewsTaskViewModel.FetchOrder(order, recs);
    var p := OthersPrecedeLast(order, recs, s);
    SortedLast(s, recs, p);
  }

  /** In any rearrangement of `order`, every task but the last of `order`
      strictly precedes that last one; the result is its new position. */
  lemma OthersPrecedeLast(order: seq<ObjectId>, recs: map<ObjectId, Task>, s: seq<ObjectId>) returns (p: int)
    requires AllIn(order, recs) && Distinct(order) && order != []
    requires recs[order[|order| - 1]].priorityRank == 3
    requires recs[order[|order| - 1]].sortIndex == |order|
    requires forall i :: 0 <= i < |order| - 1 ==>
      recs[order[i]].priorityRank <= 3 && recs[order[i]].sortIndex < |order|
    requires multiset(s) == multiset(order)
    ensures |s| == |order| && 0 <= p < |s| && s[p] == order[|order| - 1]
    ensures AllIn(s, recs)
    ensures forall j :: 0 <= j < |s| && j != p ==> Precedes(RankThenIndex, recs[s[j]], recs[s[p]])
  {
    var newId := order[|order| - 1];
    assert |s| == |order| by {
      assert |multiset(s)| == |multiset(order)|;
    }
    forall id | id in s ensures id in recs {
      assert id in multiset(order);
    }
    assert newId in multiset(s);
    p :| 0 <= p < |s| && s[p] == newId;
    PermutationDistinct(order, s);
    forall j | 0 <= j < |s| && j != p
      ensures Precedes(RankThenIndex, recs[s[j]], recs[s[p]])
    {
      assert s[j] in multiset(order);
      var i :| 0 <= i < |order| && order[i] == s[j];
      assert i != |order| - 1;
    }
  }

  /** In a sorted list, an element that every other one strictly precedes
      is the last. */
  lemma SortedLast(s: seq<ObjectId>, recs: map<ObjectId, Task>, p: int)
    requires AllIn(s, recs) && SortedBy(RankThenIndex, recs, s) && 0 <= p < |s|
    requires forall j :: 0 <= j < |s| && j != p ==> Precedes(RankThenIndex, recs[s[j]], recs[s[p]])
    ensures p == |s| - 1
  {
    if p < |s| - 1 {
      SortedPair(s, recs, p, |s| - 1);
      assert false;
    }
  }

  lemma SortedPair(s: seq<ObjectId>, recs: map<ObjectId, Task>, i: int, j: int)
    requires AllIn(s, recs) && SortedBy(RankThenIndex, recs, s) && 0 <= i < j < |s|
    ensures !Precedes(RankThenIndex, recs[s[j]], recs[s[i]])
  {
  }
}
