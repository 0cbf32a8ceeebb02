/** The task record as the code uses it, the priority-symbol table, day
    arithmetic on whole-second instants, and the in-memory object store that
    stands for the managed object context. */
module TaskRecords {

  datatype Option<T> = None | Some(value: T)

  /** The URI form of a managed object ID. Resolving it succeeds exactly when
      it names an object that is still in the store. */
  type ObjectId = string

  /** One `TimeBox_Task`. Optional Core Data attributes are `Option`s; instants
      are whole seconds; `timeAllocated` is whole minutes (the code keeps hours
      as a Double, with the values 0, 0.25, 0.5, 1, 2 and 3). */
  datatype Task = Task(
    title: Option<string>,
    desc: Option<string>,
    resolution: Option<string>,
    status: Option<string>,
    prioritySymbol: Option<string>,
    priorityRank: int,
    sortIndex: int,
    startTime: Option<int>,
    endTime: Option<int>,
    inProgressStartTime: Option<int>,
    timeAllocated: int,
    eventIdentifier: Option<string>)

  /** A freshly inserted object: the entity's attribute defaults. */
  function DefaultTask(): (t: Task)
    ensures t.priorityRank == 3 && t.timeAllocated == 0 && t.sortIndex == 0
    ensures t.prioritySymbol == None && t.status == None && t.startTime == None
  {
    Task(None, None, None, None, None, 3, 0, None, None, None, 0, None)
  }

  /** The largest value `Int16(_)` accepts; the code converts positions and
      counts with it, and the conversion traps above this value. */
  const Int16Max := 32767

  predicate IsDone(t: Task) {
    t.status == Some("Done")
  }

  /** `x ?? ""` for optional strings. */
  function OrEmpty(s: Option<string>): string {
    if s.Some? then s.value else ""
  }

  // ---------------------------------------------------------------------
  // Priority symbols

  /** The three symbols a user can pick, in menu order. */
  const PinnedSymbols: seq<string> := ["!", "!!", "!!!"]

  /** `priorityMap[symbol] ?? 3` with the map {"!": 0, "!!": 1, "!!!": 2, "": 3}. */
  function PriorityRank(symbol: string): (r: int)
    ensures 0 <= r <= 3
    ensures r < 3 <==> symbol in PinnedSymbols
    ensures r < 3 ==> PinnedSymbols[r] == symbol
  {
    if symbol == "!" then 0
    else if symbol == "!!" then 1
    else if symbol == "!!!" then 2
    else 3
  }

  /** The rank of a stored symbol, reading a missing symbol as "". */
  function RankOfSymbol(s: Option<string>): int {
    PriorityRank(OrEmpty(s))
  }

  /** `updatePriority(to:)`: the symbol is stored verbatim and the rank is
      derived from it in the same step. */
  function WithPriority(t: Task, symbol: string): (r: Task)
    ensures r.prioritySymbol == Some(symbol)
    ensures r.priorityRank == PriorityRank(symbol) && 0 <= r.priorityRank <= 3
    ensures r.(prioritySymbol := t.prioritySymbol, priorityRank := t.priorityRank) == t
  {
    t.(prioritySymbol := Some(symbol), priorityRank := PriorityRank(symbol))
  }

  /** The rank agrees with the symbol. */
  predicate RankConsistent(t: Task) {
    t.priorityRank == RankOfSymbol(t.prioritySymbol)
  }

  // ---------------------------------------------------------------------
  // Sequences of object IDs

  predicate Distinct<T(==)>(s: seq<T>) {
    forall i, j :: 0 <= i < j < |s| ==> s[i] != s[j]
  }

  predicate AllIn(s: seq<ObjectId>, recs: map<ObjectId, Task>) {
    forall id :: id in s ==> id in recs
  }

  /** `array.filter { keep($0) }` over objects looked up in the store. */
  function FilterIds(s: seq<ObjectId>, recs: map<ObjectId, Task>, keep: Task -> bool): (r: seq<ObjectId>)
    requires AllIn(s, recs)
    ensures forall id :: id in r <==> id in s && keep(recs[id])
    ensures AllIn(r, recs)
    ensures |r| <= |s|
    ensures Distinct(s) ==> Distinct(r)
  {
    if s == [] then []
    else
      var rest := FilterIds(s[1..], recs, keep);
      assert forall id :: id in s[1..] ==> id in s;
      if keep(recs[s[0]]) then [s[0]] + rest else rest
  }

  /** `array.removeAll { $0 == id }`. */
  function Without(s: seq<ObjectId>, id: ObjectId): (r: seq<ObjectId>)
    ensures forall x :: x in r <==> x in s && x != id
    ensures Distinct(s) ==> Distinct(r)
    ensures |r| <= |s|
    ensures id !in s ==> r == s
  {
    if s == [] then []
    else
      var rest := Without(s[1..], id);
      assert forall x :: x in s[1..] ==> x in s;
      assert Distinct(s) ==> s[0] !in s[1..];
      if s[0] == id then rest else [s[0]] + rest
  }

  /** `removeAll { $0 == id }` keeps the other entries in their order: it
      filters each part of a concatenation on its own. */
  lemma {:induction false} WithoutKeepsOrder(a: seq<ObjectId>, b: seq<ObjectId>, id: ObjectId)
    ensures Without(a + b, id) == Without(a, id) + Without(b, id)
  {
    if a == [] {
      assert a + b == b;
    } else {
      assert (a + b)[0] == a[0] && (a + b)[1..] == a[1..] + b;
      WithoutKeepsOrder(a[1..], b, id);
    }
  }

  /** The store's order after deleting each of `ids`. */
  function WithoutAll(order: seq<ObjectId>, ids: seq<ObjectId>): (r: seq<ObjectId>)
    ensures forall x :: x in r <==> x in order && x !in ids
    ensures Distinct(order) ==> Distinct(r)
  {
    if ids == [] then order
    else Without(WithoutAll(order, ids[..|ids| - 1]), ids[|ids| - 1])
  }

  /** The store's objects after deleting each of `ids`. */
  function DeleteAll(objects: map<ObjectId, Task>, ids: seq<ObjectId>): (r: map<ObjectId, Task>)
    ensures forall x :: x in r <==> x in objects && x !in ids
    ensures forall x :: x in r ==> r[x] == objects[x]
  {
    if ids == [] then objects
    else DeleteAll(objects, ids[..|ids| - 1]) - {ids[|ids| - 1]}
  }

  /** Deleting one more object extends both results by one step. */
  lemma DeletingOneMore(order: seq<ObjectId>, objects: map<ObjectId, Task>, ids: seq<ObjectId>, id: ObjectId)
    ensures WithoutAll(order, ids + [id]) == Without(WithoutAll(order, ids), id)
    ensures DeleteAll(objects, ids + [id]) == DeleteAll(objects, ids) - {id}
  {
    assert (ids + [id])[..|ids|] == ids;
  }

  // ---------------------------------------------------------------------
  // The store

  /** The managed object context: the live objects, and the order in which
      they were inserted (the order an unsorted fetch returns them in). */
  class Context {
    var order: seq<ObjectId>
    var objects: map<ObjectId, Task>

    ghost predicate Valid()
      reads this
    {
      Distinct(order) && (forall id :: id in objects <==> id in order)
    }

    constructor ()
      ensures Valid() && order == [] && objects == map[]
    {
      order := [];
      objects := map[];
    }

    /** `TimeBox_Task(context:)`: the object is registered at once. */
    method Insert(id: ObjectId, t: Task)
      requires Valid() && id !in objects
      modifies this
      ensures Valid()
      ensures order == old(order) + [id] && objects == old(objects)[id := t]
    {
      order := order + [id];
      objects := objects[id := t];
    }

    /** Attribute writes on registered objects: the same objects, new values. */
    method Update(w: map<ObjectId, Task>)
      requires Valid() && w.Keys == objects.Keys
      modifies this
      ensures Valid()
      ensures order == old(order) && objects == w
    {
      objects := w;
    }

    /** `context.delete(object)`. */
    method Delete(id: ObjectId)
      requires Valid()
      modifies this
      ensures Valid()
      ensures order == Without(old(order), id)
      ensures objects == old(objects) - {id}
    {
      order := Without(order, id);
      objects := objects - {id};
    }
  }
}

/** Calendar arithmetic on instants counted in whole seconds, in one fixed
    time zone without daylight-saving changes. */
module Days {

  const SecondsPerDay := 86400

  /** `Calendar.current.startOfDay(for: t)`. */
  function StartOfDay(t: int): (r: int)
    ensures r <= t < r + SecondsPerDay
    ensures r % SecondsPerDay == 0
  {
    t - t % SecondsPerDay
  }

  /** Minutes since midnight (`hour * 60 + minute` of the date components). */
  function MinuteOfDay(t: int): (r: int)
    ensures 0 <= r < 1440
    ensures StartOfDay(t) + 60 * r <= t < StartOfDay(t) + 60 * r + 60
  {
    (t % SecondsPerDay) / 60
  }

  /** `Calendar.current.isDate(a, inSameDayAs: b)`. */
  predicate SameDay(a: int, b: int) {
    StartOfDay(a) == StartOfDay(b)
  }

  /** A day boundary and an instant of that day determine each other. */
  lemma StartOfDayUnique(t: int, d: int)
    requires d % SecondsPerDay == 0 && d <= t < d + SecondsPerDay
    ensures StartOfDay(t) == d
  {
    var r := StartOfDay(t);
    assert (r - d) % SecondsPerDay == 0;
    assert -SecondsPerDay < r - d < SecondsPerDay;
  }
}
