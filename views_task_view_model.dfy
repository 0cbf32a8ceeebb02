/** The view model of `Views/TaskViewModel.swift`, a second and simpler
    `TaskViewModel` than the one in `Tasks/`: it lists every task by
    (priorityRank, sortIndex), deletes a task from the store and from its
    list, and moves rows with a dense re-numbering of `sortIndex`. */
module ViewsTaskViewModel {
  import opened TaskRecords
  import opened TaskOrdering
  import ListMove
  import TasksTaskViewModel

  /** The fetch of `fetchTasks`: every task, by priorityRank and then
      sortIndex, with no step that puts "Done" tasks last. */
  function FetchOrder(order: seq<ObjectId>, recs: map<ObjectId, Task>): (r: seq<ObjectId>)
    requires AllIn(order, recs)
    ensures multiset(r) == multiset(order) && AllIn(r, recs)
    ensures SortedBy(RankThenIndex, recs, r)
    ensures Distinct(order) ==> Distinct(r)
  {
    var r := Sort(RankThenIndex, recs, order);
    if Distinct(order) then PermutationDistinct(order, r); r else r
  }

  /** Status plays no part in this order: a "Done" task of a better rank is
      listed before an open task of a worse one, whatever the store order. */
  lemma DoneNotLast(a: ObjectId, b: ObjectId, done: Task, open: Task)
    requires a != b && IsDone(done) && !IsDone(open)
    requires done.priorityRank < open.priorityRank
    ensures FetchOrder([b, a], map[a := done, b := open]) == [a, b]
  {
    var recs := map[a := done, b := open];
    assert Precedes(RankThenIndex, recs[a], recs[b]);
    assert multiset([b, a]) == multiset([a, b]);
    SortRestores(RankThenIndex, recs, [b, a], [a, b]);
  }

  class TaskViewModel {
    var tasks: seq<ObjectId>
    const context: Context

    ghost predicate Valid()
      reads this, context
    {
      context.Valid() && AllIn(tasks, context.objects) && Distinct(tasks)
    }

    /** `init(context:)` fetches once. */
    constructor (context: Context, fetchFails: bool)
      requires context.Valid()
      ensures Valid() && this.context == context
      ensures tasks == if fetchFails then [] else FetchOrder(context.order, context.objects)
    {
      this.context := context;
      tasks := [];
      new;
      FetchTasks(fetchFails);
    }

    /** `fetchTasks`: a failed fetch leaves the list empty. */
    method FetchTasks(fetchFails: bool)
      requires Valid()
      modifies this`tasks
      ensures Valid()
      ensures tasks == if fetchFails then [] else FetchOrder(context.order, context.objects)
    {
      if fetchFails {
        tasks := [];
      } else {
        tasks := FetchOrder(context.order, context.objects);
      }
    }

    /** `deleteTask`: the object leaves the store, and every entry naming it
      leaves the list (see `TaskRecords.WithoutKeepsOrder` for the order of
      the rest). */
    method DeleteTask(id: ObjectId)
      requires Valid()
      modifies this`tasks, context
      ensures Valid()
      ensures context.order == Without(old(context.order), id)
      ensures context.objects == old(context.objects) - {id}
      ensures tasks == Without(old(tasks), id)
    {
      context.Delete(id);
      tasks := Without(tasks, id);
    }

    /** `moveTask`: the list is moved as the library moves it, and then every
      task's sortIndex becomes its new position. `Int16(newIndex)` traps
      beyond 32767, so the list holds at most 32768 tasks. */
    method MoveTask(source: set<int>, destination: int)
      requires Valid()
      requires ListMove.ValidMove(|tasks|, source, destination)
      requires |tasks| <= Int16Max + 1
      modifies this`tasks, context
      ensures Valid() && context.order == old(context.order)
      ensures tasks == ListMove.Move(old(tasks), source, destination)
      ensures context.objects == TasksTaskViewModel.WriteIndices(old(context.objects), tasks, |tasks|)
      ensures forall i :: 0 <= i < |tasks| ==> context.objects[tasks[i]].sortIndex == i
      ensures forall id :: id in context.objects && id !in tasks ==> context.objects[id] == old(context.objects[id])
    {
      var updatedTasks := ListMove.Move(tasks, source, destination);
      ListMove.MovePermutes(tasks, source, destination);
      PermutationDistinct(tasks, updatedTasks);
      assert AllIn(updatedTasks, context.objects) by {
        forall id | id in updatedTasks ensures id in context.objects {
          assert id in multiset(updatedTasks);
        }
      }
      var objects := TasksTaskViewModel.Renumber(context.objects, updatedTasks);
      TasksTaskViewModel.WriteIndicesAt(context.objects, updatedTasks, |updatedTasks|);
      assert updatedTasks[..|updatedTasks|] == updatedTasks;
      context.objects := objects;
      tasks := updatedTasks;
    }
  }
}
