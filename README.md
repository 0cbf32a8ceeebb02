# TimeBox task core in Dafny

TimeBox is an iOS planner. The user keeps a list of tasks. Each task has a
start time, allocated hours, a status ("InProgress", "Done" or "Postpone"), an
optional priority symbol ("!", "!!" or "!!!") and a rank derived from that
symbol. Each task also has a `sortIndex` that fixes its place in the list.

This project models the logic behind the app's screens:

- the two task view models, which fetch, change status and priority, delete,
  reorder and reschedule tasks;
- the home screen's list of today's tasks, with its swipe-to-delete and
  drag-to-move handlers;
- the month calendar, with its per-day badge counts, drag-and-drop
  rescheduling and row deletion;
- the compact task row, with its three menus and the gate that keeps a
  priority symbol on one listed task;
- the new-task sheet;
- the "today" fetch predicate;
- the rule that starts a new "- " bullet after a newline.

How the model stands in for the app:

- The Core Data store is a `Context` object. It holds a map from object IDs
  to `Task` records, plus the order in which the objects were inserted.
- Instants are whole seconds in one fixed time zone.
- Allocated time is whole minutes. The app stores hours as a `Double`, but it
  only ever writes 0, 0.25, 0.5, 1, 2 or 3.
- The clock (`Date()`) is a parameter `now`.
- A failing fetch is a boolean parameter.
- Saving always succeeds and changes nothing in the model.
- Every sort is one stable insertion sort. For equal keys it picks
  insertion order, which Core Data and `sort(by:)` leave unspecified. No
  lemma depends on that choice: the lemmas about fetch results go through
  strictly increasing keys.
- The app's `move(fromOffsets:toOffset:)` is modelled in `ListMove`.

Files:

| file | module | models |
|---|---|---|
| records.dfy | `TaskRecords`, `Days` | task records, the priority table, the object store, day arithmetic |
| ordering.dfy | `TaskOrdering` | the comparators and the sort |
| list_move.dfy | `ListMove` | `move(fromOffsets:toOffset:)` |
| predicates.dfy | `Predicates` | `Views/Predicates.swift` |
| newline_handling.dfy | `NewlineHandling` | `Views/Shared_/String+NewlineHandling.swift` |
| task_row_compact.dfy | `TaskRowCompact` | `Views/TaskRowCompact.swift` |
| tasks_task_view_model.dfy | `TasksTaskViewModel` | `Tasks/TaskViewModel.swift` |
| views_task_view_model.dfy | `ViewsTaskViewModel` | `Views/TaskViewModel.swift` |
| calendar_view.dfy | `CalendarView` | `Views/CalendarView.swift` |
| content_view.dfy | `ContentView` | `Views/ContentView.swift` |
| add_task_view.dfy | `AddTaskView` | `Views/AddTaskView.swift` |

## Model

| member | source | states |
|---|---|---|
| TaskRecords.DefaultTask | TimeBoxTests/TimeBoxTests.swift:56-63 | A new object has rank 3, 0 hours, sortIndex 0, and no symbol, status or start time. |
| TaskRecords.PriorityRank | Tasks/TaskViewModel.swift:132-133 | The rank is in 0..3. It is below 3 exactly for "!", "!!" and "!!!", and then it is that symbol's position in the menu. Any other symbol gets 3. |
| TaskRecords.WithPriority | Tasks/TaskViewModel.swift:131-141 | The symbol is stored as given and the rank is derived from it. Nothing else about the task changes. |
| TaskRecords.FilterIds | Tasks/TaskViewModel.swift:151 | The filter keeps exactly the listed tasks that pass the test. It never grows the list and never adds a repeat. |
| TaskRecords.Without | Views/TaskViewModel.swift:39 | `removeAll` keeps exactly the entries other than the removed ID. A list without repeats stays so, and a missing ID changes nothing. |
| TaskRecords.WithoutKeepsOrder | Views/TaskViewModel.swift:39 | Removal works on each part of a concatenation on its own, so the remaining entries keep their order. |
| TaskRecords.WithoutAll | Views/ContentView.swift:150-153 | After several deletions, the insertion order holds exactly the objects that were not deleted. |
| TaskRecords.DeleteAll | Views/ContentView.swift:150-153 | After several deletions, the store holds exactly the objects that were not deleted, and their values are unchanged. |
| TaskRecords.DeletingOneMore | Views/CalendarView.swift:237-253 | Deleting one more object takes exactly one more step from both the order and the store. |
| TaskRecords.Context.Insert | Views/AddTaskView.swift:56 | A new object is registered at once. It is appended to the order, and the store keeps its invariant. |
| TaskRecords.Context.Update | Tasks/TaskViewModel.swift:100-129 | Attribute writes on live objects (status and stamp here; also priority, sortIndex, hours and start time elsewhere) leave the same objects in the same order and store exactly the new values. |
| TaskRecords.Context.Delete | Tasks/TaskViewModel.swift:144 | `context.delete` removes the object from the store and from the order. |
| Days.StartOfDay | Tasks/TaskViewModel.swift:55 | The start of the day is a day boundary, and the instant lies within the day that starts there. |
| Days.StartOfDayUnique | Tasks/TaskViewModel.swift:55-56 | A day boundary and an instant of that day determine each other. |
| Days.MinuteOfDay | Tasks/TaskViewModel.swift:201 | The hour and minute components of an instant give a minute in 0..1439, and the instant lies within that minute of its day. |
| TaskOrdering.Insert | Tasks/TaskViewModel.swift:31-44 | Inserting into a sorted list keeps it sorted and adds exactly one element. |
| TaskOrdering.Sort | Tasks/TaskViewModel.swift:31-44 | The result is sorted by the comparator and is a permutation of the input. |
| TaskOrdering.PermutationDistinct | Views/TaskViewModel.swift:24 | A reordering of a list without repeats has no repeats either. |
| TaskOrdering.DoneLastMeans | Tasks/TaskViewModel.swift:31-44 | In the sorted list, no open task follows a "Done" one. Within each of the two groups, (priorityRank, sortIndex) never decreases. |
| TaskOrdering.SortedPermutationUnique | Tasks/TaskViewModel.swift:23-26 | If the keys strictly increase along a list, that list is the only sorted reordering of its elements. |
| TaskOrdering.SortRestores | Tasks/TaskViewModel.swift:23-26 | Sorting any reordering of a list whose keys strictly increase gives back that list. |
| TaskOrdering.Group | Tasks/TaskViewModel.swift:68-81 | The "Done" (or the open) tasks of a list, in the list's order, all of them in the store. `GroupMembers` states which tasks a group holds. |
| TaskOrdering.GroupMembers | Tasks/TaskViewModel.swift:68-81 | Each group holds tasks of the list that all share its "Done" flag. |
| TaskOrdering.GroupStrictlySorted | Tasks/TaskViewModel.swift:68-81 | A group of a list with strictly increasing keys keeps them strictly increasing. |
| TaskOrdering.GroupsPartition | Tasks/TaskViewModel.swift:68-81 | The open group and the "Done" group together are the list, as a multiset. |
| TaskOrdering.GroupsWithoutDone | Tasks/TaskViewModel.swift:68-81 | With no "Done" task, the open group is the whole list and the "Done" group is empty. |
| TaskOrdering.DoneGroupsLast | Tasks/TaskViewModel.swift:68-81 | Open tasks followed by "Done" tasks, each group with strictly increasing (rank, sortIndex), are strictly sorted by the "Done"-last comparator. |
| ListMove.Pick | Tasks/TaskViewModel.swift:174 | The elements of a range, picked by whether their offset is moved, never outnumber the range. |
| ListMove.PickPartition | Tasks/TaskViewModel.swift:174 | The moved and the unmoved elements of a range together make up the range. |
| ListMove.PickMembers | Tasks/TaskViewModel.swift:174 | An element is picked exactly when its offset is in the range and is moved (or not, for the unmoved pick). |
| ListMove.MovePermutes | Tasks/TaskViewModel.swift:174 | A move keeps the length and the elements. |
| ListMove.MoveKeepsOrder | Tasks/TaskViewModel.swift:174 | The moved elements form one block, in their old order. The unmoved elements keep their order around that block. |
| ListMove.MoveNothing | Views/TaskViewModel.swift:45 | Moving nothing leaves the list as it was, whatever the destination. |
| ListMove.PickOneMoved | Views/TaskViewModel.swift:45 | When one offset is chosen, the moved pick of a range is that element if the range holds it, and empty otherwise. |
| ListMove.PickOneKept | Views/TaskViewModel.swift:45 | When one offset is chosen, the kept pick of a range is the range without that element. |
| ListMove.MoveOne | Views/TaskViewModel.swift:45 | Moving one element takes it out and puts it back in front of the element that was at the destination. |
| ListMove.MoveExamples | Views/ContentView.swift:164 | Moving {0} to 3 in "ABC" gives "BCA", and moving {0} to 2 gives "BAC". |
| Predicates.TodayBounds | Views/Predicates.swift:6-8 | The bounds are the start of today and the start of the next day. |
| Predicates.TodayMeansSameDay | Views/Predicates.swift:14-17 | A task matches exactly when it starts on the same calendar day as `now` and its status is not "Postpone". A missing status passes. |
| Predicates.PostponedExcluded | Views/Predicates.swift:14-17 | A postponed task never matches, even when it starts today. |
| Predicates.TodayBoundaries | Views/Predicates.swift:14-17 | Midnight of today matches and midnight of tomorrow does not. |
| Predicates.FallbackAcceptsAll | Views/Predicates.swift:8-11 | When tomorrow cannot be computed, every task matches. |
| NewlineHandling.AppendingDashIfNeeded | Views/Shared_/String+NewlineHandling.swift:2-8 | "- " is appended exactly when the text grew and ends in a newline. Otherwise the text is unchanged. The result always starts with the text and is at most two characters longer. |
| NewlineHandling.ShrinkingEditUnchanged | Views/Shared_/String+NewlineHandling.swift:3 | An edit that does not make the text longer is stored as typed. |
| NewlineHandling.Idempotent | Views/Shared_/String+NewlineHandling.swift:2-8 | Applying the rule twice against the same previous text gives the same result as applying it once. |
| NewlineHandling.ResolutionSetter | Tasks/TaskDescriptionPopup.swift:37-42 | The resolution editor's inline setter follows the same rule. |
| TaskRowCompact.Holders | Views/TaskRowCompact.swift:163 | Counts the listed tasks that hold a symbol. It is 0 exactly when no listed task holds the symbol. |
| TaskRowCompact.ExclusiveAtMostOneHolder | Views/TaskRowCompact.swift:157-164 | When no two listed tasks share a symbol, each non-empty symbol has at most one holder. |
| TaskRowCompact.ChoiceItems | Views/TaskRowCompact.swift:56-62 | A symbol is offered exactly when it is in the menu and `canUse` allows it. |
| TaskRowCompact.PriorityMenu | Views/TaskRowCompact.swift:55-68 | The menu offers the usable symbols. It offers "Clear Priority" exactly when the task holds a non-empty symbol. |
| TaskRowCompact.GatedPickPreservesExclusive | Views/TaskRowCompact.swift:55-68 | Any pick from the menu keeps the listed tasks free of shared symbols. |
| TaskRowCompact.DirectWritesBreakExclusive | TimeBoxTests/PriorityTests.swift:43-61 | Writes made outside the menu leave two tasks holding "!". |
| TaskRowCompact.PriorityLabelOf | Views/TaskRowCompact.swift:70-78 | The label is the placeholder exactly when the symbol is missing or empty. Otherwise it shows the stored symbol. |
| TaskRowCompact.HoursLabelOf | Views/TaskRowCompact.swift:97-106 | The label is unset exactly at 0. It shows the matching option exactly when the value is one of the options. Otherwise it shows the warning. |
| TaskRowCompact.FirstOption | Views/TaskRowCompact.swift:100 | `first(where:)` finds an option exactly when the value is one of the options. |
| TaskRowCompact.StatusLabelOf | Views/TaskRowCompact.swift:128-138 | The label is unset exactly for a missing or empty status. It shows the known entry exactly for the three known statuses. Otherwise it shows the warning. |
| TaskRowCompact.MenusNeverWriteInvalid | Views/TaskRowCompact.swift:82-126 | No value the hours or status menus write makes a label show the warning. |
| TaskRowCompact.TaskRow.constructor | Views/TaskRowCompact.swift:4-13 | The row is built for one task and the list the gate checks against. |
| TaskRowCompact.TaskRow.UpdatePriority | Views/TaskRowCompact.swift:166-170 | The symbol and the rank are written together. Only this task changes. |
| TaskRowCompact.TaskRow.SelectPriority | Views/TaskRowCompact.swift:55-68 | A menu pick writes the item's symbol, and the listed tasks stay free of shared symbols. |
| TaskRowCompact.TaskRow.SetTimeAllocated | Views/TaskRowCompact.swift:82-95 | An hours button writes only the allocated time. |
| TaskRowCompact.TaskRow.SetStatus | Views/TaskRowCompact.swift:110-126 | A status button writes only the status. The in-progress stamp is left alone. |
| TasksTaskViewModel.FetchAll | Tasks/TaskViewModel.swift:21-49 | The fetch returns every task once, sorted with "Done" tasks last and then by (priorityRank, sortIndex). |
| TasksTaskViewModel.FetchToday | Tasks/TaskViewModel.swift:52-86 | The fetch returns exactly the tasks starting in [start of today, start of tomorrow), in the same order as FetchAll. |
| TasksTaskViewModel.FetchTodaySameDay | Tasks/TaskViewModel.swift:55-60 | A task is in today's list exactly when it starts on the same calendar day as `now`. |
| TasksTaskViewModel.WithStatus | Tasks/TaskViewModel.swift:100-108 | The new status is stored. The in-progress stamp is set to `now` exactly when the task enters "InProgress" from another status. Nothing else changes. |
| TasksTaskViewModel.ReselectKeepsStamp | Tasks/TaskViewModel.swift:106-108 | Choosing "InProgress" again keeps the stamp from the first time. |
| TasksTaskViewModel.OneHourScenario | Tasks/TaskViewModel.swift:111-119 | With one hour allocated, finishing after 70 minutes earns the banner and finishing after 50 minutes does not. |
| TasksTaskViewModel.CongratsAfterStart | Tasks/TaskViewModel.swift:106-119 | For a task not in progress: finishing it earns the banner exactly when the status chosen before was "InProgress" and the allocated time has passed since that choice. Choosing "InProgress" again in between does not restart the clock. |
| TasksTaskViewModel.Pinned | Tasks/TaskViewModel.swift:151-157 | Keeps exactly the listed tasks of rank below 3, sorted by (rank, sortIndex). |
| TasksTaskViewModel.Unpinned | Tasks/TaskViewModel.swift:159-160 | Keeps exactly the listed tasks of rank 3, sorted by sortIndex. |
| TasksTaskViewModel.ReorderedElements | Tasks/TaskViewModel.swift:171-176 | Pinned plus moved unpinned tasks holds exactly the tasks of both groups, each once. |
| TasksTaskViewModel.MovedSameElements | Tasks/TaskViewModel.swift:174 | A move keeps the elements, and a list without repeats stays so. |
| TasksTaskViewModel.NewOrderPermutes | Tasks/TaskViewModel.swift:150-176 | The new order lists each task once and leaves out exactly the tasks whose rank is above 3. When every rank is at most 3, it is a permutation of the list. |
| TasksTaskViewModel.DistinctSameElements | Tasks/TaskViewModel.swift:176 | Two lists without repeats that hold the same elements are permutations of each other. |
| TasksTaskViewModel.WriteIndices | Tasks/TaskViewModel.swift:177-179 | Numbering the list changes values but adds or removes no object. |
| TasksTaskViewModel.Renumber | Tasks/TaskViewModel.swift:177-179 | The loop's result is the store with the list numbered from 0. |
| TasksTaskViewModel.WriteIndicesAt | Tasks/TaskViewModel.swift:177-179 | The i-th listed task gets sortIndex i and is otherwise unchanged. Every task the loop does not visit is untouched. |
| TasksTaskViewModel.AcceptedMoveIsFetchOrder | Tasks/TaskViewModel.swift:150-184 | After an accepted move, the (rank, sortIndex) keys of the new order strictly increase. So a fetch sorted by (priorityRank, sortIndex) alone returns exactly the new order: pinned tasks first, then the moved unpinned tasks. |
| TasksTaskViewModel.WriteIndicesKeepsFields | Tasks/TaskViewModel.swift:177-179 | The numbering loop leaves every start time and status as it was. |
| TasksTaskViewModel.FetchTodayOfStrict | Tasks/TaskViewModel.swift:58-81 | A list of exactly today's tasks with strictly increasing (rank, sortIndex) keys is fetched as its open tasks, then its "Done" tasks, each group in the list's order. With no "Done" task, the fetch returns the list itself. This follows from any sort that meets the fetch's contract. |
| TasksTaskViewModel.MovedTodayMembers | Tasks/TaskViewModel.swift:150-184 | When the moved list is today's tasks, all of rank at most 3, the renumbered new order holds exactly today's tasks. |
| TasksTaskViewModel.AcceptedMoveFetchedToday | Tasks/TaskViewModel.swift:150-184 | The `fetchTodayTasks()` that ends an accepted move returns the new order's open tasks, then its "Done" tasks, each in the new order. When none is "Done", it returns exactly the new order. |
| TasksTaskViewModel.ReindexedStrictlySorted | Tasks/TaskViewModel.swift:176-179 | Numbering a sorted pinned block followed by a rank-3 block makes the keys strictly increase. |
| TasksTaskViewModel.RescheduledStart | Tasks/TaskViewModel.swift:200-214 | The new start falls on the new date's day, at the old hour and minute, with 0 seconds. Without an old start, it is the new date itself. |
| TasksTaskViewModel.RescheduledStartUnique | Tasks/TaskViewModel.swift:200-207 | The day, the minute of the day and zero seconds determine the instant, so that contract fixes the result. |
| TasksTaskViewModel.TaskViewModel.constructor | Tasks/TaskViewModel.swift:4-15 | The list starts empty and the banner starts off. |
| TasksTaskViewModel.TaskViewModel.FetchTasks | Tasks/TaskViewModel.swift:21-49 | The list becomes the full fetch, or empty when the fetch throws. |
| TasksTaskViewModel.TaskViewModel.FetchTodayTasks | Tasks/TaskViewModel.swift:52-86 | The list becomes today's fetch, or empty when the fetch throws. |
| TasksTaskViewModel.TaskViewModel.SetTaskStatus | Tasks/TaskViewModel.swift:100-129 | The status and stamp are written as WithStatus says. The banner and message are set exactly when the change earns them. The list is refetched. |
| TasksTaskViewModel.TaskViewModel.UpdatePriority | Tasks/TaskViewModel.swift:131-141 | The symbol and rank are written together, and the list is refetched. |
| TasksTaskViewModel.TaskViewModel.DeleteTask | Tasks/TaskViewModel.swift:143-147 | The object leaves the store and the order, and the list is refetched. |
| TasksTaskViewModel.TaskViewModel.WriteSortIndices | Tasks/TaskViewModel.swift:177-179 | Each task's position in the new order becomes its sortIndex. |
| TasksTaskViewModel.TaskViewModel.MoveTasks | Tasks/TaskViewModel.swift:150-185 | A move that crosses into the pinned block changes nothing. An accepted move numbers pinned plus moved unpinned tasks from 0 and refetches the list. |
| TasksTaskViewModel.TaskViewModel.RescheduleTask | Tasks/TaskViewModel.swift:189-222 | An ID that names no live object changes nothing. Otherwise only the task's start time changes, as RescheduledStart says. |
| ViewsTaskViewModel.FetchOrder | Views/TaskViewModel.swift:16-29 | Every task once, sorted by (priorityRank, sortIndex). |
| ViewsTaskViewModel.DoneNotLast | Views/TaskViewModel.swift:18-21 | Status plays no part in this order: a "Done" task of a better rank comes before an open task. |
| ViewsTaskViewModel.TaskViewModel.constructor | Views/TaskViewModel.swift:10-13 | Creating the view model fetches once. |
| ViewsTaskViewModel.TaskViewModel.FetchTasks | Views/TaskViewModel.swift:16-29 | The list becomes the fetch, or empty when the fetch throws. |
| ViewsTaskViewModel.TaskViewModel.DeleteTask | Views/TaskViewModel.swift:32-40 | The object leaves the store, and every list entry naming it is removed. |
| ViewsTaskViewModel.TaskViewModel.MoveTask | Views/TaskViewModel.swift:43-52 | The list is moved. Each task's new position becomes its sortIndex. Tasks not in the list are untouched. |
| AddTaskView.AddTaskView.constructor | Views/AddTaskView.swift:4-12 | The sheet holds the typed title and description. |
| AddTaskView.AddTaskView.AddTask | Views/AddTaskView.swift:55-70 | The new task is appended with the typed title and description and an empty status. Its sortIndex is the task count, which already includes it, or 0 when the count fails. All else is default, and no other task changes. |
| AddTaskView.NewTaskListedLast | Views/AddTaskView.swift:61-62 | If every earlier task has rank at most 3 and a sortIndex below the count, the new task is the last one the fetch lists. |
| AddTaskView.OthersPrecedeLast | Views/AddTaskView.swift:61-62 | In any reordering, every earlier task strictly precedes the new one. |
| AddTaskView.SortedLast | Views/AddTaskView.swift:61-62 | In a sorted list, an element that every other one strictly precedes is the last. |
| ContentView.TodayTasks | Views/ContentView.swift:8-15 | The fetch returns exactly the tasks the today predicate accepts, sorted by (rank, sortIndex), each once. |
| ContentView.SortedTodayTasks | Views/ContentView.swift:27-33 | The rows show the same tasks, with no "Done" task before an open one, sorted with "Done" last. |
| ContentView.RowsAt | Views/ContentView.swift:151 | The k-th deleted task is the row at the k-th offset. |
| ContentView.TodayListMeans | Views/ContentView.swift:8-15 | The home list shows exactly today's tasks that are not postponed, each once. |
| ContentView.FetchListsDoneFirst | Views/ContentView.swift:8-15 | A "Done" task of better rank comes first in the fetch, whatever the store order. |
| ContentView.SwipeDeletesOtherRow | Views/ContentView.swift:27-33 | For those two tasks, the screen shows the reverse of the fetch order, so row 0 of the screen is not row 0 of the fetch. |
| ContentView.GateIgnoresOtherDays | Views/ContentView.swift:82 | The row gate sees only today's tasks: what a task of another day holds does not change it. |
| ContentView.SymbolSharedAcrossDays | Views/ContentView.swift:82 | So a task of today can take "!" while a task of another day holds it. |
| ContentView.MovedAndRenumbered | Views/ContentView.swift:163-169 | Each moved task gets its new position as sortIndex and is otherwise unchanged. Tasks outside the list are untouched. |
| ContentView.MovedStaysIn | Views/ContentView.swift:164 | A move keeps today's tasks, each once. |
| ContentView.MoveAndRenumber | Views/ContentView.swift:163-169 | The move-then-number loop produces MovedAndRenumbered. |
| ContentView.ContentView.constructor | Views/ContentView.swift:8-15 | The fetch is built with today's bounds. |
| ContentView.ContentView.Today | Views/ContentView.swift:15 | The fetched results are live objects, each once. |
| ContentView.ContentView.Displayed | Views/ContentView.swift:27-33 | The rows on screen are a reordering of the fetched results. |
| ContentView.ContentView.DeleteRows | Views/ContentView.swift:150-153 | Exactly the tasks at the offsets of the list are deleted. |
| ContentView.ContentView.DeleteTasks | Views/ContentView.swift:149-155 | As written: the offsets are read in the fetch order. |
| ContentView.ContentView.DeleteDisplayedTasks | Views/ContentView.swift:79-86 | Corrected: exactly the tasks on the swiped rows leave the store, and every other task is unchanged. |
| ContentView.ContentView.MoveTasks | Views/ContentView.swift:157-171 | As written: today's fetch order is moved with no pinned guard and numbered from 0. Tasks of other days are untouched. |
| ContentView.ContentView.MoveDisplayedTasks | Views/ContentView.swift:79-87 | Corrected: the rows as shown are moved, and each shown task gets its new row position as sortIndex. Tasks of other days are untouched. |
| ContentView.ThreeRowsShown | Views/ContentView.swift:27-33 | A "Done" task fetched first is shown after two open tasks of one rank, which keep their sortIndex order. |
| ContentView.MoveFirstPastOne | Views/ContentView.swift:164 | Moving the first of three rows to destination 2 swaps the first two rows. |
| ContentView.MoveDragsOtherRow | Views/ContentView.swift:163-169 | As written: dragging the top shown row below the next one renumbers the fetch order instead, and the dragged task stays above the other. |
| ContentView.DisplayedMoveLandsRow | Views/ContentView.swift:79-87 | Corrected: the same drag numbers the dragged task right after the task it was dragged past. |
| CalendarView.MakeDaysInMonth | Views/CalendarView.swift:164-173 | The days start at the first of the month, one day apart, end before the interval's end and cover it. Without an interval there are none. |
| CalendarView.Bump | Views/CalendarView.swift:104 | `counts[key, default: 0] += 1` adds one to that day and changes no other day. |
| CalendarView.Decrement | Views/CalendarView.swift:97-102 | A day with a positive count loses one, and a day with a key at 0 or below becomes 0. Other days are unchanged and no key is added. |
| CalendarView.TallyCounts | Views/CalendarView.swift:220-227 | Each day's count is the number of tasks starting on it, and a day without tasks has no key. |
| CalendarView.MonthTasks | Views/CalendarView.swift:210-219 | The monthly fetch returns exactly the tasks starting in the month's interval. |
| CalendarView.DayTasks | Views/CalendarView.swift:187-206 | The day's fetch returns exactly the tasks starting on that day. |
| CalendarView.CountsAfterDrop | Views/CalendarView.swift:96-104 | A drop keeps counts non-negative and adds the target day's key. |
| CalendarView.ListAfterDrop | Views/CalendarView.swift:86-94 | The dropped task leaves the list if it was on the selected day, and is appended last if it lands there. Other entries stay. |
| CalendarView.CountOnUpdate | Views/CalendarView.swift:96-104 | Changing one task moves its count from its old day to its new one. |
| CalendarView.DropAgreesWithRecount | Views/CalendarView.swift:96-104 | Updating the badges in place on a drop gives the same counts as counting again. |
| CalendarView.RemoveAt | Views/CalendarView.swift:241 | `remove(at:)` shifts the later rows down by one. |
| CalendarView.RemoveAtParts | Views/CalendarView.swift:238-241 | The rest of the list and the removed row together make up the list. |
| CalendarView.RemainingInTurn | Views/CalendarView.swift:237-241 | Each offset is read against the already shrunk list, and each removes one row. |
| CalendarView.RemovedInTurn | Views/CalendarView.swift:237-241 | One task is removed per offset. |
| CalendarView.RemovedInTurnParts | Views/CalendarView.swift:237-241 | The removed and the remaining tasks together make up the list. |
| CalendarView.RemovedInTurnStep | Views/CalendarView.swift:237-241 | Each turn removes the row at its offset in the list as the earlier turns left it. |
| CalendarView.SequentialDeleteSkipsRow | Views/CalendarView.swift:236-254 | As written: offsets {0, 1} of [a, b, c] remove a and c and keep b. |
| CalendarView.RemoveAtOffsets | Views/CalendarView.swift:236-254 | Corrected: a row stays exactly when its offset was not chosen. |
| CalendarView.RemoveAtOffsetsKeepsOthers | Views/CalendarView.swift:236-254 | The kept rows and the chosen rows together make up the list, so nothing is lost or duplicated. |
| CalendarView.RemoveAtOffsetsKeepsRow | Views/CalendarView.swift:236-254 | Corrected: offsets {0, 1} of [a, b, c] keep c. |
| CalendarView.DropDay | Views/CalendarView.swift:244-249 | Deleting a task takes one from its day's badge when that is positive and sets a key at 0 or below to 0. Other days are unchanged. |
| CalendarView.DecrementDays | Views/CalendarView.swift:243-249 | Over the loop, the badges keep their keys and stay non-negative. Each badge drops by at most the number of deleted tasks on its day, and never rises. |
| CalendarView.CountOnWithout | Views/CalendarView.swift:252 | Removing one task from a list without repeats lowers the count of its day by one and leaves every other day's count alone. |
| CalendarView.DeleteAgreesWithRecount | Views/CalendarView.swift:243-252 | If the badges counted a list of tasks, then after deleting some of them each badge equals the number of remaining tasks on that day. The floor at 0 never comes into play. |
| CalendarView.DeleteOneRecount | Views/CalendarView.swift:243-252 | One deletion keeps a badge equal to the count of the remaining tasks on its day. |
| CalendarView.DeletedOneMore | Views/CalendarView.swift:237-253 | Each further turn unfolds the counts, the order and the store by one step. |
| CalendarView.StillListed | Views/CalendarView.swift:237-241 | A row that survives the loop was in the list and was not removed. |
| CalendarView.CountByDay | Views/CalendarView.swift:220-227 | The loop's dictionary maps each day to the number of tasks starting on it. |
| CalendarView.CalendarView.constructor | Views/CalendarView.swift:9-23 | The list and the counts start empty, and the selected date is now. |
| CalendarView.CalendarView.SelectDay | Views/CalendarView.swift:60-66 | Tapping a day selects it and lists exactly that day's tasks. |
| CalendarView.CalendarView.FetchMonthlyTaskCounts | Views/CalendarView.swift:209-233 | Without an interval the counts stay. A failed fetch empties them. Otherwise they become the tally of the month's tasks. |
| CalendarView.CalendarView.OnDropTask | Views/CalendarView.swift:67-108 | An ID that names no live task is refused and changes nothing. Otherwise the task is rescheduled and the list and counts are updated in place. |
| CalendarView.CalendarView.DeleteRow | Views/CalendarView.swift:238-252 | One turn: the row leaves the list, its day's badge drops, and the task is deleted through the view model. |
| CalendarView.CalendarView.DeleteNext | Views/CalendarView.swift:237-253 | One loop turn advances the state by exactly one offset. |
| CalendarView.CalendarView.DeleteTasks | Views/CalendarView.swift:236-254 | After the loop, the list, the counts, the store and the order are those of sequential removal at shifting offsets. |

## Left out

- Calendar integration is left out, because it calls code this model does not see. This covers `CalendarService.deleteEvent` in `Views/TaskViewModel.swift`.
- Haptics, `withAnimation`, `print` and `dismiss()` are left out: they do not change the data.
- Saving to disk is left out. Saves succeed and change nothing in the model, and an error from `save()` only prints in the app.
- Time zones and daylight-saving changes are not modelled: days are 86400 seconds in one fixed zone.
- Allocated time is whole minutes, not hours as a `Double`. The app only writes values that are whole minutes.
- TasksTaskViewModel.TaskViewModel.FetchTodayTasks: the early return when `date(byAdding:)` fails is not modelled. With integer days, adding a day never fails.
- TasksTaskViewModel.RescheduledStart: the fallback to the start of the new day when `date(from:)` fails is not modelled, because with integer days that call never fails.
- CalendarView.MakeDaysInMonth: the `?? current` fallback, which would loop forever, is not modelled. Adding a day always succeeds here.
- CalendarView.CalendarView.DeleteTasks: the model accepts offsets in any order, not only the increasing order an `IndexSet` yields. It requires each offset to be in range when its turn comes, as the app traps otherwise.
- ContentView.ContentView.DeleteTasks: the fetched results are read once, before the loop. A live `FetchedResults` refreshing mid-loop is not modelled.
- Month navigation, the date formatters and view layout are left out. So is the `Views/Calendar/` copy of the calendar, which is not part of this model.
- Core Data's sort descriptors are modelled as one stable sort, which picks insertion order for equal keys. Core Data leaves that order unspecified, and no lemma depends on the choice.
- Integer width: `Int16(i)` traps above 32767. The callers that convert positions require at most 32768 tasks. Ranks and counts are otherwise unbounded integers.
- TasksTaskViewModel.TaskViewModel.MoveTasks: the app traps when shifted offsets fall outside the unpinned list. The model requires that they do not (`MoveWellFormed`).
- ContentView.ContentView.MoveTasks reads its offsets in the fetch order while the rows show the display order, the same mismatch as DeleteTasks. It is modelled as written, and the third Findings row gives the corrected move.
- CalendarView.CalendarView.DeleteTasks requires the listed rows to be distinct live tasks. The app does not check this. A list fetched from the store always meets it, and drops keep it.
- NewlineHandling.AppendingDashIfNeeded works on single characters. Swift compares grapheme clusters, so "\r\n" is one `Character` there and does not count as ending in "\n". CRLF input is abstracted away.

## Findings

| source | as written | input that shows it | evidently intended | confidence | as-written member | corrected member |
|---|---|---|---|---|---|---|
| Views/CalendarView.swift:236-254 | Each offset is removed from the list as earlier removals have already shrunk it. | Offsets {0, 1} on rows [a, b, c] remove a and c and keep b. Offsets {0, 2} trap. | Remove exactly the swiped rows (`remove(atOffsets:)`). | not executed | CalendarView.SequentialDeleteSkipsRow | CalendarView.RemoveAtOffsets |
| Views/ContentView.swift:149-155 | The swipe offset indexes the fetch order (rank, sortIndex), while the rows (lines 27-33, 79) show "Done" tasks last. | A "Done" task a of rank 0 and an open task b of rank 3: fetch [a, b], screen [b, a]. Swiping row 0 (b) deletes a. | Delete the task on the swiped row. | not executed | ContentView.ContentView.DeleteTasks | ContentView.ContentView.DeleteDisplayedTasks |
| Views/ContentView.swift:157-171 | The drag's offsets and destination index the fetch order (rank, sortIndex), while the rows (lines 27-33, 79, 87) show "Done" tasks last. | Fetch [a, b, c] with a "Done" and b, c open of one rank (b numbered first): the screen shows [b, c, a]. Dragging b below c (offset 0 to 2) renumbers [b, a, c], so b stays above c. | Move the dragged row to where it was dropped. | not executed | ContentView.MoveDragsOtherRow | ContentView.ContentView.MoveDisplayedTasks |
