/** The compact task row of `Views/TaskRowCompact.swift`: its three menus
    (priority, hours, status), the gate that keeps a priority symbol on at
    most one listed task, and how the menu labels classify the stored values.
    Hours are whole minutes: the row only ever writes 0.25, 0.5, 1, 2 or 3
    hours, that is 15, 30, 60, 120 or 180 minutes, or 0. */
module TaskRowCompact {
  import opened TaskRecords

  /** `hourOptions`, in minutes. */
  const HourOptions: seq<int> := [15, 30, 60, 120, 180]

  /** `orderedStatuses`, which are also the keys of `statusInfo`. */
  const OrderedStatuses: seq<string> := ["InProgress", "Done", "Postpone"]

  /** `symbolsInOrder`: the symbols the priority menu can offer. */
  const SymbolsInOrder: seq<string> := ["!", "!!", "!!!"]

  // ---------------------------------------------------------------------
  // The priority gate

  /** How many of the listed tasks hold `symbol`; `allTasks.contains` is
      this count being positive. */
  function Holders(recs: map<ObjectId, Task>, ids: seq<ObjectId>, symbol: string): (n: nat)
    requires AllIn(ids, recs)
    ensures n <= |ids|
    ensures n == 0 <==> forall i :: 0 <= i < |ids| ==> recs[ids[i]].prioritySymbol != Some(symbol)
  {
    if ids == [] then 0
    else
      assert forall id :: id in ids[1..] ==> id in ids;
      var rest := Holders(recs, ids[1..], symbol);
      assert rest == 0 <==> forall i :: 1 <= i < |ids| ==> recs[ids[i]].prioritySymbol != Some(symbol) by {
        assert forall i :: 1 <= i < |ids| ==> ids[i] == ids[1..][i - 1];
      }
      (if recs[ids[0]].prioritySymbol == Some(symbol) then 1 else 0) + rest
  }

  /** `canUse(symbol:)`: the task may take `symbol` when it already holds it
      (a missing symbol reads as "") or when no listed task holds it. */
  predicate CanUse(current: Task, symbol: string, recs: map<ObjectId, Task>, allTasks: seq<ObjectId>)
    requires AllIn(allTasks, recs)
  {
    OrEmpty(current.prioritySymbol) == symbol || Holders(recs, allTasks, symbol) == 0
  }

  /** No two listed tasks share a non-empty symbol. */
  predicate Exclusive(recs: map<ObjectId, Task>, ids: seq<ObjectId>)
    requires AllIn(ids, recs)
  {
    forall i, j :: 0 <= i < j < |ids| && recs[ids[i]].prioritySymbol == recs[ids[j]].prioritySymbol ==>
      OrEmpty(recs[ids[i]].prioritySymbol) == ""
  }

  /** In an exclusive list each non-empty symbol has at most one holder. */
  lemma {:induction false} ExclusiveAtMostOneHolder(recs: map<ObjectId, Task>, ids: seq<ObjectId>, symbol: string)
    requires AllIn(ids, recs) && Exclusive(recs, ids) && symbol != ""
    ensures Holders(recs, ids, symbol) <= 1
  {
    if ids != [] {
      var tail := ids[1..];
      assert forall id :: id in tail ==> id in ids;
      assert forall i :: 0 <= i < |tail| ==> tail[i] == ids[i + 1];
      assert Exclusive(recs, tail) by {
        forall i, j | 0 <= i < j < |tail| && recs[tail[i]].prioritySymbol == recs[tail[j]].prioritySymbol
          ensures OrEmpty(recs[tail[i]].prioritySymbol) == ""
        {
          assert tail[i] == ids[i + 1] && tail[j] == ids[j + 1];
        }
      }
      ExclusiveAtMostOneHolder(recs, tail, symbol);
      if recs[ids[0]].prioritySymbol == Some(symbol) {
        forall i | 0 <= i < |tail| ensures recs[tail[i]].prioritySymbol != Some(symbol) {
          assert tail[i] == ids[i + 1];
        }
      }
    }
  }

  // ---------------------------------------------------------------------
  // The priority menu

  datatype PriorityItem = Choose(symbol: string) | ClearPriority

  /** The symbol a menu item writes: "Clear Priority" writes "". */
  function ItemSymbol(item: PriorityItem): string {
    match item
    case Choose(s) => s
    case ClearPriority => ""
  }

  /** The `ForEach` over `symbols`, keeping a button for each usable one. */
  function ChoiceItems(symbols: seq<string>, current: Task, recs: map<ObjectId, Task>, allTasks: seq<ObjectId>): (items: seq<PriorityItem>)
    requires AllIn(allTasks, recs)
    ensures forall item :: item in items ==> item.Choose?
    ensures forall s :: Choose(s) in items <==> s in symbols && CanUse(current, s, recs, allTasks)
  {
    if symbols == [] then []
    else
      (if CanUse(current, symbols[0], recs, allTasks) then [Choose(symbols[0])] else []) +
      ChoiceItems(symbols[1..], current, recs, allTasks)
  }

  /** The priority menu: the usable symbols in order, then "Clear Priority"
      when the task holds a non-empty symbol. */
  function PriorityMenu(current: Task, recs: map<ObjectId, Task>, allTasks: seq<ObjectId>): (items: seq<PriorityItem>)
    requires AllIn(allTasks, recs)
    ensures forall s :: Choose(s) in items <==> s in SymbolsInOrder && CanUse(current, s, recs, allTasks)
    ensures ClearPriority in items <==> OrEmpty(current.prioritySymbol) != ""
  {
    ChoiceItems(SymbolsInOrder, current, recs, allTasks) +
    (if OrEmpty(current.prioritySymbol) != "" then [ClearPriority] else [])
  }

  /** Picking from the menu keeps the listed tasks exclusive: a symbol is
      offered only to its holder or when nobody holds it, and clearing
      writes "". */
  lemma GatedPickPreservesExclusive(recs: map<ObjectId, Task>, ids: seq<ObjectId>, id: ObjectId, item: PriorityItem)
    requires AllIn(ids, recs) && id in recs && Distinct(ids) && Exclusive(recs, ids)
    requires item in PriorityMenu(recs[id], recs, ids)
    ensures Exclusive(recs[id := WithPriority(recs[id], ItemSymbol(item))], ids)
  {
    var symbol := ItemSymbol(item);
    var recs' := recs[id := WithPriority(recs[id], symbol)];
    if item.Choose? {
      assert CanUse(recs[id], symbol, recs, ids);
    }
    forall i, j | 0 <= i < j < |ids| && recs'[ids[i]].prioritySymbol == recs'[ids[j]].prioritySymbol
      ensures OrEmpty(recs'[ids[i]].prioritySymbol) == ""
    {
      if ids[i] == id || ids[j] == id {
        var other := if ids[i] == id then j else i;
        assert ids[other] != id;
        if symbol != "" {
          assert recs[ids[other]].prioritySymbol == Some(symbol);
        }
      }
    }
  }

  /** Writes made outside the gate can leave two tasks holding "!". */
  lemma DirectWritesBreakExclusive()
    ensures var t := WithPriority(DefaultTask(), "!");
            var recs := map["a" := t, "b" := t];
            Holders(recs, ["a", "b"], "!") == 2 && !Exclusive(recs, ["a", "b"])
  {
    var t := WithPriority(DefaultTask(), "!");
    var recs := map["a" := t, "b" := t];
    var ids: seq<ObjectId> := ["a", "b"];
    assert ids[0] == "a" && ids[1] == "b" && ids[1..] == ["b"] && ids[1..][1..] == [];
    assert recs[ids[0]].prioritySymbol == recs[ids[1]].prioritySymbol;
  }

  // ---------------------------------------------------------------------
  // Menu labels

  datatype PriorityLabel = PriorityPlaceholder | SymbolText(symbol: string)

  function PriorityLabelOf(prioritySymbol: Option<string>): (l: PriorityLabel)
    ensures l == PriorityPlaceholder <==> OrEmpty(prioritySymbol) == ""
    ensures l.SymbolText? ==> prioritySymbol == Some(l.symbol)
  {
    if OrEmpty(prioritySymbol) == "" then PriorityPlaceholder else SymbolText(OrEmpty(prioritySymbol))
  }

  datatype HoursLabel = HoursUnset | HoursOption(minutes: int) | HoursInvalid

  /** The hours label: unset at 0, the matching option when there is one, and
      the warning icon otherwise. */
  function HoursLabelOf(timeAllocated: int): (l: HoursLabel)
    ensures l == HoursUnset <==> timeAllocated == 0
    ensures l.HoursOption? <==> timeAllocated != 0 && timeAllocated in HourOptions
    ensures l.HoursOption? ==> l.minutes == timeAllocated
  {
    if timeAllocated == 0 then HoursUnset
    else FirstOption(HourOptions, timeAllocated)
  }

  /** `hourOptions.first(where:)`. */
  function FirstOption(options: seq<int>, minutes: int): (l: HoursLabel)
    ensures l.HoursOption? <==> minutes in options
    ensures l.HoursOption? ==> l.minutes == minutes
    ensures !l.HoursUnset?
  {
    if options == [] then HoursInvalid
    else if options[0] == minutes then HoursOption(options[0])
    else FirstOption(options[1..], minutes)
  }

  datatype StatusLabel = StatusUnset | StatusKnown(key: string) | StatusInvalid

  /** The status label: unset for a missing or empty status, the `statusInfo`
      entry for a known key, and the warning icon otherwise. */
  function StatusLabelOf(status: Option<string>): (l: StatusLabel)
    ensures l == StatusUnset <==> OrEmpty(status) == ""
    ensures l.StatusKnown? <==> OrEmpty(status) in OrderedStatuses
    ensures l.StatusKnown? ==> status == Some(l.key)
  {
    var current := OrEmpty(status);
    if current == "" then StatusUnset
    else if current in OrderedStatuses then StatusKnown(current)
    else StatusInvalid
  }

  /** Whatever the menus write, the labels never show the warning icon. */
  lemma MenusNeverWriteInvalid(minutes: int, status: string)
    requires minutes == 0 || minutes in HourOptions
    requires status == "" || status in OrderedStatuses
    ensures HoursLabelOf(minutes) != HoursInvalid
    ensures StatusLabelOf(Some(status)) != StatusInvalid
  {
  }

  // ---------------------------------------------------------------------
  // The row

  class TaskRow {
    const context: Context
    /** The observed task. */
    const task: ObjectId
    /** The list the row checks priorities against. */
    const allTasks: seq<ObjectId>

    constructor (context: Context, task: ObjectId, allTasks: seq<ObjectId>)
      ensures this.context == context && this.task == task && this.allTasks == allTasks
    {
      this.context := context;
      this.task := task;
      this.allTasks := allTasks;
    }

    /** `updatePriority(to:)`: symbol and rank are written together. */
    method UpdatePriority(newSymbol: string)
      requires context.Valid() && task in context.objects
      modifies context
      ensures context.Valid() && context.order == old(context.order)
      ensures context.objects == old(context.objects)[task := WithPriority(old(context.objects[task]), newSymbol)]
    {
      context.objects := context.objects[task := WithPriority(context.objects[task], newSymbol)];
    }

    /** A button of the priority menu. */
    method SelectPriority(item: PriorityItem)
      requires context.Valid() && task in context.objects && AllIn(allTasks, context.objects)
      requires item in PriorityMenu(context.objects[task], context.objects, allTasks)
      modifies context
      ensures context.Valid() && context.order == old(context.order)
      ensures context.objects == old(context.objects)[task := WithPriority(old(context.objects[task]), ItemSymbol(item))]
      ensures Distinct(allTasks) && Exclusive(old(context.objects), allTasks) ==> Exclusive(context.objects, allTasks)
    {
      if Distinct(allTasks) && Exclusive(context.objects, allTasks) {
        GatedPickPreservesExclusive(context.objects, allTasks, task, item);
      }
      UpdatePriority(ItemSymbol(item));
    }

    /** A button of the hours menu: an option, or "Clear Hours" (0). Only
      timeAllocated changes. */
    method SetTimeAllocated(minutes: int)
      requires context.Valid() && task in context.objects
      requires minutes == 0 || minutes in HourOptions
      modifies context
      ensures context.Valid() && context.order == old(context.order)
      ensures context.objects == old(context.objects)[task := old(context.objects[task]).(timeAllocated := minutes)]
    {
      context.objects := context.objects[task := context.objects[task].(timeAllocated := minutes)];
    }

    /** A button of the status menu: a known status, or "Clear Status" ("").
      Only the status changes; the in-progress stamp is not touched. */
    method SetStatus(status: string)
      requires context.Valid() && task in context.objects
      requires status == "" || status in OrderedStatuses
      modifies context
      ensures context.Valid() && context.order == old(context.order)
      ensures context.objects == old(context.objects)[task := old(context.objects[task]).(status := Some(status))]
    {
      context.objects := context.objects[task := context.objects[task].(status := Some(status))];
    }
  }
}
