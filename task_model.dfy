/** The task entity, its urgency derived from the days elapsed since creation,
    and the store that owns the ordered task collection and persists it. */
module TaskModel {
  import Constants

  datatype Option<T> = None | Some(value: T)

  datatype TaskDuration = Short | Medium | Long

  datatype UrgencyLevel = Normal | Yellow | Orange | Red

  /** Task identifiers stand for UUID values: only equality and freshness matter. */
  type TaskId = nat

  /** An opaque creation timestamp; no store operation reads or changes it. */
  type Date = int

  datatype Task = Task(
    id: TaskId,
    title: string,
    description: string,
    duration: TaskDuration,
    isCompleted: bool,
    creationDate: Date)
  {
    /** The urgency of this task once `daysSinceCreation` whole days have passed. */
    function Urgency(daysSinceCreation: int): UrgencyLevel
    {
      UrgencyOf(duration, daysSinceCreation)
    }
  }

  // ---------------------------------------------------------------------------
  // Urgency
  // ---------------------------------------------------------------------------

  /** The order normal < yellow < orange < red in which urgency escalates. */
  function Severity(level: UrgencyLevel): nat
  {
    match level
    case Normal => 0
    case Yellow => 1
    case Orange => 2
    case Red => 3
  }

  function YellowThreshold(duration: TaskDuration): int
  {
    match duration
    case Short => Constants.ShortYellow
    case Medium => Constants.MediumYellow
    case Long => Constants.LongYellow
  }

  function OrangeThreshold(duration: TaskDuration): int
    requires duration != Short
  {
    if duration == Medium then Constants.MediumOrange else Constants.LongOrange
  }

  function RedThreshold(duration: TaskDuration): int
  {
    match duration
    case Short => Constants.ShortRed
    case Medium => Constants.MediumRed
    case Long => Constants.LongRed
  }

  /** Whether `days` meets the threshold of `level` for the class `duration`.
      Normal needs no threshold; short tasks have no orange tier. */
  predicate Reached(duration: TaskDuration, days: int, level: UrgencyLevel)
  {
    match level
    case Normal => true
    case Yellow => days >= YellowThreshold(duration)
    case Orange => duration != Short && days >= OrangeThreshold(duration)
    case Red => days >= RedThreshold(duration)
  }

  /** Urgency of a task of class `duration` that is `daysSinceCreation` whole days old:
      the thresholds are tried from red down, so the highest one reached wins. */
  function UrgencyOf(duration: TaskDuration, daysSinceCreation: int): (level: UrgencyLevel)
    ensures Reached(duration, daysSinceCreation, level)
    ensures forall other :: Reached(duration, daysSinceCreation, other) ==> Severity(other) <= Severity(level)
  {
    match duration
    case Short =>
      if daysSinceCreation >= Constants.ShortRed then Red
      else if daysSinceCreation >= Constants.ShortYellow then Yellow
      else Normal
    case Medium =>
      if daysSinceCreation >= Constants.MediumRed then Red
      else if daysSinceCreation >= Constants.MediumOrange then Orange
      else if daysSinceCreation >= Constants.MediumYellow then Yellow
      else Normal
    case Long =>
      if daysSinceCreation >= Constants.LongRed then Red
      else if daysSinceCreation >= Constants.LongOrange then Orange
      else if daysSinceCreation >= Constants.LongYellow then Yellow
      else Normal
  }

  /** Short tasks: red from two days, yellow at one day, never orange. */
  lemma ShortLevels(days: int)
    ensures UrgencyOf(Short, days) == Red <==> days >= 2
    ensures UrgencyOf(Short, days) == Yellow <==> days == 1
    ensures UrgencyOf(Short, days) == Normal <==> days < 1
    ensures UrgencyOf(Short, days) != Orange
  {
  }

  /** Medium tasks: red from four days, orange at three, yellow at two. */
  lemma MediumLevels(days: int)
    ensures UrgencyOf(Medium, days) == Red <==> days >= 4
    ensures UrgencyOf(Medium, days) == Orange <==> days == 3
    ensures UrgencyOf(Medium, days) == Yellow <==> days == 2
    ensures UrgencyOf(Medium, days) == Normal <==> days < 2
  {
  }

  /** Long tasks: red from six days, orange at five, yellow at four. */
  lemma LongLevels(days: int)
    ensures UrgencyOf(Long, days) == Red <==> days >= 6
    ensures UrgencyOf(Long, days) == Orange <==> days == 5
    ensures UrgencyOf(Long, days) == Yellow <==> days == 4
    ensures UrgencyOf(Long, days) == Normal <==> days < 4
  {
  }

  /** Urgency never decreases as a task ages. */
  lemma UrgencyMonotone(duration: TaskDuration, earlier: int, later: int)
    requires earlier <= later
    ensures Severity(UrgencyOf(duration, earlier)) <= Severity(UrgencyOf(duration, later))
  {
    var level := UrgencyOf(duration, earlier);
    assert Reached(duration, later, level);
  }

  /** Before a whole day has passed (including a negative count from a clock
      set back), every task is normal. */
  lemma NormalBeforeFirstDay(duration: TaskDuration, daysSinceCreation: int)
    requires daysSinceCreation <= 0
    ensures UrgencyOf(duration, daysSinceCreation) == Normal
  {
    Constants.ThresholdsIncreasing();
  }

  /** A short task 36 hours old is yellow, not red. The argument `36 / 24` stands in
      for the calendar's count of whole days between creation and now, which
      for 36 hours is one day. */
  lemma ShortTaskAfterThirtySixHours(task: Task)
    requires task.duration == Short
    ensures task.Urgency(36 / 24) == Yellow
  {
  }

  // ---------------------------------------------------------------------------
  // The task collection as a value
  // ---------------------------------------------------------------------------

  predicate HasId(ts: seq<Task>, id: TaskId)
  {
    exists i :: 0 <= i < |ts| && ts[i].id == id
  }

  predicate UniqueIds(ts: seq<Task>)
  {
    forall i, j :: 0 <= i < j < |ts| ==> ts[i].id != ts[j].id
  }

  /** `us` has the same length as `ts` and the same id at every position. */
  predicate SameIds(ts: seq<Task>, us: seq<Task>)
  {
    |ts| == |us| && forall i :: 0 <= i < |ts| ==> ts[i].id == us[i].id
  }

  /** Position `j` holds the first task of `ts` whose id is `id`. */
  predicate IsFirstMatch(ts: seq<Task>, id: TaskId, j: int)
  {
    0 <= j < |ts| && ts[j].id == id && forall k :: 0 <= k < j ==> ts[k].id != id
  }

  /** The position of the first task with id `id`, as `firstIndex(where:)` finds it. */
  function FirstIndex(ts: seq<Task>, id: TaskId): (index: Option<nat>)
    ensures index.Some? ==> IsFirstMatch(ts, id, index.value)
    ensures index.None? <==> !HasId(ts, id)
  {
    if |ts| == 0 then None
    else if ts[0].id == id then Some(0)
    else
      match FirstIndex(ts[1..], id)
      case None =>
        assert forall i :: 1 <= i < |ts| ==> ts[i] == ts[1..][i - 1];
        None
      case Some(k) => Some(k + 1)
  }

  /** The library search `firstIndex(where: { $0.id == id })`: a forward scan. */
  method FindFirstIndex(ts: seq<Task>, id: TaskId) returns (index: Option<nat>)
    ensures index == FirstIndex(ts, id)
  {
    var i := 0;
    while i < |ts|
      invariant 0 <= i <= |ts|
      invariant forall k :: 0 <= k < i ==> ts[k].id != id
    {
      if ts[i].id == id {
        assert IsFirstMatch(ts, id, i);
        return Some(i);
      }
      i := i + 1;
    }
    return None;
  }

  /** The largest id in use, or 0 for an empty collection. */
  function MaxId(ts: seq<Task>): (m: nat)
    ensures forall i :: 0 <= i < |ts| ==> ts[i].id <= m
  {
    if |ts| == 0 then 0
    else
      var rest := MaxId(ts[1..]);
      assert forall i :: 1 <= i < |ts| ==> ts[i] == ts[1..][i - 1];
      if ts[0].id > rest then ts[0].id else rest
  }

  /** A fresh identifier, standing for a newly generated UUID. */
  function FreshId(ts: seq<Task>): (id: TaskId)
    ensures !HasId(ts, id)
  {
    MaxId(ts) + 1
  }

  /** `tasks.remove(at:)` applied at the first match of `id`, if there is one. */
  function DeleteById(ts: seq<Task>, id: TaskId): seq<Task>
  {
    match FirstIndex(ts, id)
    case None => ts
    case Some(i) => ts[..i] + ts[i + 1..]
  }

  /** `isCompleted.toggle()` applied to the first match of `id`, if there is one. */
  function ToggleById(ts: seq<Task>, id: TaskId): seq<Task>
  {
    match FirstIndex(ts, id)
    case None => ts
    case Some(i) => ts[i := ts[i].(isCompleted := !ts[i].isCompleted)]
  }

  /** The three field assignments of `updateTask` applied to the first match of `id`. */
  function UpdateById(ts: seq<Task>, id: TaskId, title: string, description: string,
                      duration: TaskDuration): seq<Task>
  {
    match FirstIndex(ts, id)
    case None => ts
    case Some(i) => ts[i := ts[i].(title := title, description := description, duration := duration)]
  }

  /** How many offsets lie below position `i`. */
  function CountBelow(offsets: set<int>, i: int): nat
  {
    |set o | o in offsets && o < i|
  }

  /** `tasks.remove(atOffsets:)`: the tasks whose positions are not in `offsets`,
      in their original order. Every offset must be a valid position. */
  function RemoveOffsets(ts: seq<Task>, offsets: set<int>): (r: seq<Task>)
    requires forall o :: o in offsets ==> 0 <= o < |ts|
    ensures |r| == |ts| - |offsets|
    decreases |ts|
  {
    if |ts| == 0 then
      assert forall o :: o !in offsets;
      assert offsets == {};
      []
    else
      var n := |ts| - 1;
      var rest := RemoveOffsets(ts[..n], offsets - {n});
      if n in offsets then rest else rest + [ts[n]]
  }

  // ---------------------------------------------------------------------------
  // Lemmas about the collection operations
  // ---------------------------------------------------------------------------

  /** The first match is the one FirstIndex reports. */
  lemma FirstIndexIsFirstMatch(ts: seq<Task>, id: TaskId, j: int)
    requires IsFirstMatch(ts, id, j)
    ensures FirstIndex(ts, id) == Some(j)
  {
  }

  /** The search depends only on the ids, position by position. */
  lemma FirstIndexSameIds(ts: seq<Task>, us: seq<Task>, id: TaskId)
    requires SameIds(ts, us)
    ensures FirstIndex(ts, id) == FirstIndex(us, id)
  {
    match FirstIndex(ts, id)
    case None =>
    case Some(j) =>
      FirstIndexIsFirstMatch(us, id, j);
  }

  lemma SameIdsKeepUnique(ts: seq<Task>, us: seq<Task>)
    requires SameIds(ts, us) && UniqueIds(ts)
    ensures UniqueIds(us)
  {
  }

  /** deleteTask(id:) removes the first task carrying `id` and keeps the rest in order. */
  lemma DeleteByIdRemovesFirstMatch(ts: seq<Task>, id: TaskId, j: int)
    requires IsFirstMatch(ts, id, j)
    ensures |DeleteById(ts, id)| == |ts| - 1
    ensures DeleteById(ts, id) == ts[..j] + ts[j + 1..]
  {
    FirstIndexIsFirstMatch(ts, id, j);
  }

  /** With no task carrying `id`, deleteTask(id:) changes nothing. */
  lemma DeleteByIdAbsent(ts: seq<Task>, id: TaskId)
    requires !HasId(ts, id)
    ensures DeleteById(ts, id) == ts
  {
  }

  /** With unique ids, deleteTask(id:) removes exactly the task carrying `id`,
      leaves no task with that id and keeps the ids unique. */
  lemma DeleteByIdUnique(ts: seq<Task>, id: TaskId)
    requires UniqueIds(ts)
    ensures UniqueIds(DeleteById(ts, id))
    ensures !HasId(DeleteById(ts, id), id)
    ensures forall t :: t in DeleteById(ts, id) <==> t in ts && t.id != id
  {
    match FirstIndex(ts, id)
    case None =>
    case Some(j) =>
      var r := ts[..j] + ts[j + 1..];
      assert |r| == |ts| - 1;
      assert forall k :: 0 <= k < |r| ==> r[k] == ts[if k < j then k else k + 1];
      forall t | t in ts && t.id != id
        ensures t in r
      {
        var k :| 0 <= k < |ts| && ts[k] == t;
        assert k != j;
        assert r[if k < j then k else k - 1] == t;
      }
  }

  /** Under unique ids, deleting the same id twice is deleting it once. */
  lemma DeleteByIdIdempotent(ts: seq<Task>, id: TaskId)
    requires UniqueIds(ts)
    ensures DeleteById(DeleteById(ts, id), id) == DeleteById(ts, id)
  {
    DeleteByIdUnique(ts, id);
  }

  /** toggleCompletion flips isCompleted of the first match only; every id, title,
      description, duration and creation date stays as it was. */
  lemma ToggleByIdEffect(ts: seq<Task>, id: TaskId)
    ensures SameIds(ts, ToggleById(ts, id))
    ensures forall j :: 0 <= j < |ts| ==>
      var (t, u) := (ts[j], ToggleById(ts, id)[j]);
      u.title == t.title && u.description == t.description && u.duration == t.duration &&
      u.creationDate == t.creationDate &&
      (u.isCompleted != t.isCompleted <==> IsFirstMatch(ts, id, j))
  {
    match FirstIndex(ts, id)
    case None =>
    case Some(i) =>
      forall j | 0 <= j < |ts| && IsFirstMatch(ts, id, j)
        ensures j == i
      {
        FirstIndexIsFirstMatch(ts, id, j);
      }
  }

  /** Toggling the same id twice restores the collection. */
  lemma ToggleByIdTwice(ts: seq<Task>, id: TaskId)
    ensures ToggleById(ToggleById(ts, id), id) == ts
  {
    var us := ToggleById(ts, id);
    ToggleByIdEffect(ts, id);
    FirstIndexSameIds(ts, us, id);
  }

  lemma ToggleByIdAbsent(ts: seq<Task>, id: TaskId)
    requires !HasId(ts, id)
    ensures ToggleById(ts, id) == ts
  {
  }

  /** updateTask sets title, description and duration of the first match; its id,
      completion flag and creation date, and every other task, are unchanged. */
  lemma UpdateByIdEffect(ts: seq<Task>, id: TaskId, title: string, description: string,
                         duration: TaskDuration)
    ensures SameIds(ts, UpdateById(ts, id, title, description, duration))
    ensures forall j :: 0 <= j < |ts| ==>
      var (t, u) := (ts[j], UpdateById(ts, id, title, description, duration)[j]);
      u.isCompleted == t.isCompleted && u.creationDate == t.creationDate &&
      (IsFirstMatch(ts, id, j) ==> u.title == title && u.description == description && u.duration == duration) &&
      (!IsFirstMatch(ts, id, j) ==> u == t)
  {
    match FirstIndex(ts, id)
    case None =>
    case Some(i) =>
      forall j | 0 <= j < |ts| && IsFirstMatch(ts, id, j)
        ensures j == i
      {
        FirstIndexIsFirstMatch(ts, id, j);
      }
  }

  lemma UpdateByIdAbsent(ts: seq<Task>, id: TaskId, title: string, description: string,
                         duration: TaskDuration)
    requires !HasId(ts, id)
    ensures UpdateById(ts, id, title, description, duration) == ts
  {
  }

  /** Repeating an update with the same values changes nothing more. */
  lemma UpdateByIdIdempotent(ts: seq<Task>, id: TaskId, title: string, description: string,
                             duration: TaskDuration)
    ensures var us := UpdateById(ts, id, title, description, duration);
      UpdateById(us, id, title, description, duration) == us
  {
    var us := UpdateById(ts, id, title, description, duration);
    UpdateByIdEffect(ts, id, title, description, duration);
    FirstIndexSameIds(ts, us, id);
  }

  lemma CountBelowWithout(offsets: set<int>, n: int, i: int)
    requires i <= n
    ensures CountBelow(offsets - {n}, i) == CountBelow(offsets, i)
  {
    assert (set o | o in offsets - {n} && o < i) == (set o | o in offsets && o < i);
  }

  lemma CountBelowAll(offsets: set<int>, n: int)
    requires forall o :: o in offsets ==> o < n
    ensures CountBelow(offsets, n) == |offsets|
  {
    assert (set o | o in offsets && o < n) == offsets;
  }

  /** remove(atOffsets:) keeps every task whose position is not an offset, in order:
      the survivor at position i lands at i minus the number of offsets below i. */
  lemma {:induction false} RemoveOffsetsKeepsSurvivors(ts: seq<Task>, offsets: set<int>)
    requires forall o :: o in offsets ==> 0 <= o < |ts|
    ensures forall i :: 0 <= i < |ts| && i !in offsets ==>
      0 <= i - CountBelow(offsets, i) < |RemoveOffsets(ts, offsets)| &&
      RemoveOffsets(ts, offsets)[i - CountBelow(offsets, i)] == ts[i]
    decreases |ts|
  {
    if |ts| > 0 {
      var n := |ts| - 1;
      var r := RemoveOffsets(ts, offsets);
      var rest := RemoveOffsets(ts[..n], offsets - {n});
      assert r == if n in offsets then rest else rest + [ts[n]];
      RemoveOffsetsKeepsSurvivors(ts[..n], offsets - {n});
      forall i | 0 <= i < |ts| && i !in offsets
        ensures 0 <= i - CountBelow(offsets, i) < |r| && r[i - CountBelow(offsets, i)] == ts[i]
      {
        if i < n {
          CountBelowWithout(offsets, n, i);
          assert i !in offsets - {n};
          assert rest[i - CountBelow(offsets, i)] == ts[..n][i];
        } else {
          CountBelowAll(offsets, n);
          assert |offsets - {n}| == |offsets|;
        }
      }
    }
  }

  /** Every task that remove(atOffsets:) keeps was in the collection. */
  lemma {:induction false} RemoveOffsetsSubset(ts: seq<Task>, offsets: set<int>)
    requires forall o :: o in offsets ==> 0 <= o < |ts|
    ensures forall k :: 0 <= k < |RemoveOffsets(ts, offsets)| ==>
      exists j :: 0 <= j < |ts| && j !in offsets && ts[j] == RemoveOffsets(ts, offsets)[k]
    decreases |ts|
  {
    if |ts| > 0 {
      var n := |ts| - 1;
      var r := RemoveOffsets(ts, offsets);
      var rest := RemoveOffsets(ts[..n], offsets - {n});
      assert r == if n in offsets then rest else rest + [ts[n]];
      RemoveOffsetsSubset(ts[..n], offsets - {n});
      forall k | 0 <= k < |r|
        ensures exists j :: 0 <= j < |ts| && j !in offsets && ts[j] == r[k]
      {
        if k < |rest| {
          assert exists j :: 0 <= j < |ts[..n]| && j !in offsets - {n} && ts[..n][j] == rest[k];
          var j :| 0 <= j < |ts[..n]| && j !in offsets - {n} && ts[..n][j] == rest[k];
          assert ts[j] == r[k];
        } else {
          assert ts[n] == r[k];
        }
      }
    } else {
      assert RemoveOffsets(ts, offsets) == [];
    }
  }

  /** remove(atOffsets:) keeps ids unique. */
  lemma {:induction false} RemoveOffsetsKeepsUnique(ts: seq<Task>, offsets: set<int>)
    requires forall o :: o in offsets ==> 0 <= o < |ts|
    requires UniqueIds(ts)
    ensures UniqueIds(RemoveOffsets(ts, offsets))
    decreases |ts|
  {
    if |ts| > 0 {
      var n := |ts| - 1;
      var rest := RemoveOffsets(ts[..n], offsets - {n});
      RemoveOffsetsKeepsUnique(ts[..n], offsets - {n});
      RemoveOffsetsSubset(ts[..n], offsets - {n});
      if n !in offsets {
        forall k | 0 <= k < |rest|
          ensures rest[k].id != ts[n].id
        {
          var j :| 0 <= j < n && ts[..n][j] == rest[k];
        }
      }
    }
  }

  /** Removing at a single offset is removing that one task; so deleteTask(id:)
      is deleteTask(at:) applied to the first match's position. */
  lemma {:induction false} RemoveSingleOffset(ts: seq<Task>, i: int)
    requires 0 <= i < |ts|
    ensures RemoveOffsets(ts, {i}) == ts[..i] + ts[i + 1..]
    decreases |ts|
  {
    var n := |ts| - 1;
    if i == n {
      assert {i} - {n} == {};
      RemoveNoOffsets(ts[..n]);
    } else {
      assert {i} - {n} == {i};
      RemoveSingleOffset(ts[..n], i);
      assert ts[..n][..i] == ts[..i];
      assert ts[..n][i + 1..] + [ts[n]] == ts[i + 1..];
    }
  }

  lemma {:induction false} RemoveNoOffsets(ts: seq<Task>)
    ensures RemoveOffsets(ts, {}) == ts
    decreases |ts|
  {
    if |ts| > 0 {
      var n := |ts| - 1;
      assert {} - {n} == {};
      RemoveNoOffsets(ts[..n]);
      assert ts[..n] + [ts[n]] == ts;
    }
  }

  lemma DeleteByIdAsOffsets(ts: seq<Task>, id: TaskId, j: int)
    requires IsFirstMatch(ts, id, j)
    ensures DeleteById(ts, id) == RemoveOffsets(ts, {j})
  {
    DeleteByIdRemovesFirstMatch(ts, id, j);
    RemoveSingleOffset(ts, j);
  }

  // ---------------------------------------------------------------------------
  // The store
  // ---------------------------------------------------------------------------

  /** Owns the ordered task collection. Every assignment to `tasks` is followed by
      a save, as the source's `didSet` observer does. `persisted` stands for the
      one user-defaults entry the store uses, the one under Constants.TasksKey
      ("tasks"): the task collection that entry decodes to, or None when nothing
      decodable is stored there. */
  class TaskStore {
    var tasks: seq<Task>
    var persisted: Option<seq<Task>>

    /** The snapshot is the collection, except before the first save of a store
        that found nothing to load. */
    ghost predicate Valid()
      reads this
    {
      persisted == Some(tasks) || (persisted == None && tasks == [])
    }

    /** `init()`: starts empty and loads whatever decodes from the user defaults. */
    constructor (stored: Option<seq<Task>>)
      ensures Valid()
      ensures persisted == stored
      ensures tasks == if stored.Some? then stored.value else []
    {
      tasks := [];
      persisted := stored;
      new;
      Load();
    }

    /** Encodes the whole collection and stores it under Constants.TasksKey. */
    method Save()
      modifies this`persisted
      ensures persisted == Some(tasks)
    {
      persisted := Some(tasks);
    }

    /** Replaces the collection with the decoded data, if any; otherwise leaves it. */
    method Load()
      modifies this
      ensures persisted == old(persisted)
      ensures tasks == if old(persisted).Some? then old(persisted).value else old(tasks)
    {
      if persisted.Some? {
        tasks := persisted.value;
        Save();
      }
    }

    /** Appends a new, incomplete task with a fresh id and the given fields. */
    method AddTask(title: string, description: string, duration: TaskDuration, now: Date)
      requires Valid()
      modifies this
      ensures Valid() && persisted == Some(tasks)
      ensures |tasks| == |old(tasks)| + 1 && tasks[..|old(tasks)|] == old(tasks)
      ensures var t := tasks[|old(tasks)|];
        t.title == title && t.description == description && t.duration == duration &&
        !t.isCompleted && t.creationDate == now && !HasId(old(tasks), t.id)
      ensures UniqueIds(old(tasks)) ==> UniqueIds(tasks)
    {
      var task := Task(FreshId(tasks), title, description, duration, false, now);
      tasks := tasks + [task];
      Save();
    }

    /** Removes the tasks at the given positions, keeping the order of the rest. */
    method DeleteTaskAt(offsets: set<int>)
      requires Valid()
      requires forall o :: o in offsets ==> 0 <= o < |tasks|
      modifies this
      ensures Valid() && persisted == Some(tasks)
      ensures tasks == RemoveOffsets(old(tasks), offsets)
      ensures UniqueIds(old(tasks)) ==> UniqueIds(tasks)
    {
      if UniqueIds(tasks) {
        RemoveOffsetsKeepsUnique(tasks, offsets);
      }
      tasks := RemoveOffsets(tasks, offsets);
      Save();
    }

    /** Removes the first task with id `id`; does nothing, not even save, if none. */
    method DeleteTask(id: TaskId)
      requires Valid()
      modifies this
      ensures Valid()
      ensures tasks == DeleteById(old(tasks), id)
      ensures persisted == if HasId(old(tasks), id) then Some(tasks) else old(persisted)
      ensures UniqueIds(old(tasks)) ==> UniqueIds(tasks)
    {
      if UniqueIds(tasks) {
        DeleteByIdUnique(tasks, id);
      }
      var index := FindFirstIndex(tasks, id);
      if index.Some? {
        tasks := tasks[..index.value] + tasks[index.value + 1..];
        Save();
      }
    }

    /** Flips isCompleted of the first task with the same id as `task`. */
    method ToggleCompletion(task: Task)
      requires Valid()
      modifies this
      ensures Valid()
      ensures tasks == ToggleById(old(tasks), task.id)
      ensures persisted == if HasId(old(tasks), task.id) then Some(tasks) else old(persisted)
      ensures UniqueIds(old(tasks)) ==> UniqueIds(tasks)
    {
      ToggleByIdEffect(tasks, task.id);
      if UniqueIds(tasks) {
        SameIdsKeepUnique(tasks, ToggleById(tasks, task.id));
      }
      var index := FindFirstIndex(tasks, task.id);
      if index.Some? {
        var i := index.value;
        tasks := tasks[i := tasks[i].(isCompleted := !tasks[i].isCompleted)];
        Save();
      }
    }

    /** Sets title, description and duration of the first task with id `id`, one
        field at a time, saving after each; does nothing if there is none. */
    method UpdateTask(id: TaskId, title: string, description: string, duration: TaskDuration)
      requires Valid()
      modifies this
      ensures Valid()
      ensures tasks == UpdateById(old(tasks), id, title, description, duration)
      ensures persisted == if HasId(old(tasks), id) then Some(tasks) else old(persisted)
      ensures UniqueIds(old(tasks)) ==> UniqueIds(tasks)
    {
      UpdateByIdEffect(tasks, id, title, description, duration);
      if UniqueIds(tasks) {
        SameIdsKeepUnique(tasks, UpdateById(tasks, id, title, description, duration));
      }
      var index := FindFirstIndex(tasks, id);
      if index.Some? {
        var i := index.value;
        ghost var expected := UpdateById(tasks, id, title, description, duration);
        tasks := tasks[i := tasks[i].(title := title)];
        Save();
        tasks := tasks[i := tasks[i].(description := description)];
        Save();
        tasks := tasks[i := tasks[i].(duration := duration)];
        Save();
        assert tasks == expected;
      }
    }
  }

  /** Saving and then loading is a fixed point: a store opened on what another
      store persisted holds the same ordered collection and the same snapshot. */
  method ReopenStore(store: TaskStore) returns (reopened: TaskStore)
    requires store.Valid()
    ensures fresh(reopened) && reopened.Valid()
    ensures reopened.tasks == store.tasks && reopened.persisted == store.persisted
  {
    reopened := new TaskStore(store.persisted);
  }
}
