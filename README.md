# tick-tick task model in Dafny

tick-tick is a personal task tracker. Each task carries a coarse duration class
(short, medium or long). The task's urgency (normal, yellow, orange or red) is
derived from how many whole days have passed since it was created. A single
`TaskStore` owns the ordered list of tasks. It offers add, delete (by id or by a
set of positions), toggle-completion and update, and re-saves the whole list to
the user defaults after every change.

This project models that core:

- `constants.dfy`. Module `Constants` holds the urgency thresholds and the key
  `"tasks"` under which the list is persisted.
- `task_model.dfy`. Module `TaskModel` holds the `Task` record and the urgency
  rule `UrgencyOf`. It defines the list operations as functions on `seq<Task>`
  with lemmas about them. It also has the `TaskStore` class: a `tasks: seq<Task>`
  field and a `persisted` snapshot. Its methods reassign `tasks` the way the
  Swift code mutates its array, and they call `Save` after every assignment,
  the way the `didSet` observer does.
- `literal_task_model.dfy`. Module `LiteralTaskModel` models the root-level copy
  `tick-tick/TaskModel.swift`. That copy writes the thresholds and the key as
  literals. Its store code is otherwise identical, line for line, to the one in
  `tick-tick/Models/TaskModel.swift`. So its `TaskStore`
  (`tick-tick/TaskModel.swift:69-122`) is modelled by the same class
  `TaskModel.TaskStore`. The module proves that the literal urgency rule and the
  literal key agree with the named constants.

Modelling choices:

- Days elapsed is an explicit `int` parameter. It may be negative.
- Task ids (`UUID` in the source) are naturals. A new id is
  `FreshId(tasks)`, one more than the largest id in use, so it is never already
  present.
- `creationDate` is an opaque `Date = int`. `AddTask` takes it as the `now`
  parameter.
- `persisted: Option<seq<Task>>` is the list that decodes from the user defaults
  under the tasks key. `None` means nothing is stored there or the stored data
  does not decode.
- The constructor takes that value as `stored` and runs `Load`.
- `Save` stores `Some(tasks)`.
- A save happens on exactly the paths where the Swift code assigns to `tasks`:
  - `updateTask` assigns three fields, so it saves three times.
  - `remove(atOffsets:)`, `append` and `load` with decodable data each save once.
  - A delete, toggle or update whose id is absent assigns nothing and saves
    nothing.
- `Valid()` states that the snapshot equals the list. The one exception is a
  store that found nothing to load and has not been changed since; there the
  snapshot is `None` and the list is empty.
- Unique ids are not part of `Valid()`. The source never checks them on load, so
  decoded data might not have them. Instead, every operation shows that it keeps
  them unique if they were unique before.

A short task is yellow, not red, 36 hours after creation. `urgencyLevel`
counts whole calendar days (tick-tick/Models/TaskModel.swift:37-38), and 36
hours is one day; see `TaskModel.ShortTaskAfterThirtySixHours`.

## Model

| member | source | states |
|---|---|---|
| `Constants.ThresholdValues` | tick-tick/Utilities/Constants.swift:27-44 | Short thresholds are yellow 1 and red 2; medium 2, 3, 4; long 4, 5, 6 |
| `Constants.ThresholdsIncreasing` | tick-tick/Utilities/Constants.swift:27-44 | Each class's thresholds are at least one day and strictly increase from yellow to red |
| `TaskModel.UrgencyOf` | tick-tick/Models/TaskModel.swift:36-66 | The result's threshold is reached, and no reached level is more severe: the highest threshold met wins, and normal is the result when none is met |
| `TaskModel.ShortLevels` | tick-tick/Models/TaskModel.swift:40-46 | A short task is red exactly from 2 days, yellow exactly at 1 day, normal below 1, and never orange |
| `TaskModel.MediumLevels` | tick-tick/Models/TaskModel.swift:47-54 | A medium task is red from 4 days, orange at 3, yellow at 2, normal below 2 (each an if-and-only-if) |
| `TaskModel.LongLevels` | tick-tick/Models/TaskModel.swift:55-62 | A long task is red from 6 days, orange at 5, yellow at 4, normal below 4 (each an if-and-only-if) |
| `TaskModel.UrgencyMonotone` | tick-tick/Models/TaskModel.swift:36-66 | Urgency never decreases as the day count grows (normal < yellow < orange < red) |
| `TaskModel.NormalBeforeFirstDay` | tick-tick/Models/TaskModel.swift:36-66 | Any day count of zero or less, including a negative one, gives normal for every class |
| `TaskModel.ShortTaskAfterThirtySixHours` | tick-tick/Models/TaskModel.swift:40-46 | A short task with 36 hours elapsed (one whole day) is yellow |
| `TaskModel.FirstIndex` | tick-tick/Models/TaskModel.swift:90 | The position returned holds the first task with that id; no position is returned exactly when no task has that id |
| `TaskModel.FindFirstIndex` | tick-tick/Models/TaskModel.swift:90 | The forward scan of `firstIndex(where:)` returns exactly the first matching position, or none |
| `TaskModel.FirstIndexIsFirstMatch` | tick-tick/Models/TaskModel.swift:90 | Any position that is the first match is the one the search reports |
| `TaskModel.FirstIndexSameIds` | tick-tick/Models/TaskModel.swift:95-107 | Two lists with the same ids at every position give the same search result, so toggle and update do not move the match |
| `TaskModel.SameIdsKeepUnique` | tick-tick/Models/TaskModel.swift:95-107 | A list with the same ids position by position as a unique-id list has unique ids |
| `TaskModel.FreshId` | tick-tick/Models/TaskModel.swift:24-25 | The id given to a new task is carried by no task already in the list |
| `TaskModel.RemoveOffsets` | tick-tick/Models/TaskModel.swift:85-87 | Removing at a set of valid positions shortens the list by the number of positions |
| `TaskModel.RemoveOffsetsKeepsSurvivors` | tick-tick/Models/TaskModel.swift:85-87 | Every task at a position outside the set survives at its position minus the number of removed positions below it; so survivors keep their order |
| `TaskModel.RemoveOffsetsSubset` | tick-tick/Models/TaskModel.swift:85-87 | Every task in the result is a task of the input at a position that was not removed |
| `TaskModel.RemoveOffsetsKeepsUnique` | tick-tick/Models/TaskModel.swift:85-87 | Removing at offsets keeps ids unique |
| `TaskModel.RemoveNoOffsets` | tick-tick/Models/TaskModel.swift:85-87 | Removing at no positions leaves the list as it was |
| `TaskModel.RemoveSingleOffset` | tick-tick/Models/TaskModel.swift:85-87 | Removing at one position removes exactly that task and keeps the rest in order |
| `TaskModel.DeleteByIdAsOffsets` | tick-tick/Models/TaskModel.swift:85-93 | Deleting by id is deleting at the single offset of the first match |
| `TaskModel.DeleteByIdRemovesFirstMatch` | tick-tick/Models/TaskModel.swift:89-93 | Deleting by id removes the first task with that id, shortens the list by one and keeps the other tasks in order |
| `TaskModel.DeleteByIdAbsent` | tick-tick/Models/TaskModel.swift:89-93 | Deleting an id no task carries changes nothing |
| `TaskModel.DeleteByIdUnique` | tick-tick/Models/TaskModel.swift:89-93 | With unique ids, deleting keeps ids unique, leaves no task with that id, and keeps exactly the tasks whose id differs |
| `TaskModel.DeleteByIdIdempotent` | tick-tick/Models/TaskModel.swift:89-93 | With unique ids, deleting the same id twice has the effect of deleting it once |
| `TaskModel.ToggleByIdEffect` | tick-tick/Models/TaskModel.swift:95-99 | Toggling keeps every id, title, description, duration and creation date; isCompleted changes exactly at the first match |
| `TaskModel.ToggleByIdTwice` | tick-tick/Models/TaskModel.swift:95-99 | Toggling the same id twice restores the original list |
| `TaskModel.ToggleByIdAbsent` | tick-tick/Models/TaskModel.swift:95-99 | Toggling an id no task carries changes nothing |
| `TaskModel.UpdateByIdEffect` | tick-tick/Models/TaskModel.swift:101-107 | Updating sets title, description and duration of the first match; every id, isCompleted and creation date, and every other task, are unchanged |
| `TaskModel.UpdateByIdAbsent` | tick-tick/Models/TaskModel.swift:101-107 | Updating an id no task carries changes nothing |
| `TaskModel.UpdateByIdIdempotent` | tick-tick/Models/TaskModel.swift:101-107 | Repeating an update with the same values changes nothing further |
| `TaskModel.TaskStore.constructor` | tick-tick/Models/TaskModel.swift:69-78 | A new store holds the decoded list if there is one and the empty list otherwise; the snapshot is what was stored |
| `TaskModel.TaskStore.Save` | tick-tick/Models/TaskModel.swift:109-113 | Saving makes the snapshot the whole current list |
| `TaskModel.TaskStore.Load` | tick-tick/Models/TaskModel.swift:115-121 | Loading replaces the list with decodable stored data and otherwise leaves it; the snapshot is unchanged |
| `TaskModel.TaskStore.AddTask` | tick-tick/Models/TaskModel.swift:80-83 | The list grows by one and keeps its old prefix; the new last task has the given title, description, duration and date, is not completed, and has a fresh id; the snapshot is the new list |
| `TaskModel.TaskStore.DeleteTaskAt` | tick-tick/Models/TaskModel.swift:85-87 | The list loses exactly the tasks at the given valid offsets; the snapshot is the new list; unique ids stay unique |
| `TaskModel.TaskStore.DeleteTask` | tick-tick/Models/TaskModel.swift:89-93 | The list loses its first task with that id; if there is none, nothing changes and nothing is saved |
| `TaskModel.TaskStore.ToggleCompletion` | tick-tick/Models/TaskModel.swift:95-99 | The first task with the given task's id has isCompleted flipped; if there is none, nothing changes and nothing is saved |
| `TaskModel.TaskStore.UpdateTask` | tick-tick/Models/TaskModel.swift:101-107 | The first task with that id gets the new title, description and duration, and the final snapshot is the new list; if there is none, nothing changes and the snapshot is unchanged (the body saves after each of the three assignments, but only the final snapshot is visible) |
| `TaskModel.ReopenStore` | tick-tick/Models/TaskModel.swift:109-121 | Opening a store on what a store persisted gives the same ordered list and snapshot: save then load is a fixed point |
| `LiteralTaskModel.LiteralUrgencyAgrees` | tick-tick/TaskModel.swift:36-66 | For every class and day count, the literal-threshold urgency equals the named-threshold urgency |
| `LiteralTaskModel.LiteralUrgencyIsHighestReached` | tick-tick/TaskModel.swift:40-65 | The literal rule also returns the highest reached level (red from 2/4/6, orange from 3/5, yellow from 1/2/4) |
| `LiteralTaskModel.SameTasksKey` | tick-tick/TaskModel.swift:109-121 | The root copy saves and loads under `"tasks"`, the same key as `Constants.TasksKey` |

## Left out

- Calendar arithmetic (`Calendar.current.dateComponents`, `Date()`) is a clock and library call. Urgency takes the whole-day count as a parameter. The `?? 0` fallback for a missing day component is not modelled.
- `Task.Urgency` is a one-line delegation to `UrgencyOf`. Its properties are the rows for `UrgencyOf`.
- `UUID()` is modelled by the deterministic fresh choice `FreshId`. The model captures freshness, not randomness.
- JSON encoding and decoding and `UserDefaults` are foreign serialisation and storage. They are abstracted to the decoded snapshot `persisted`, with no byte format.
- An encoding failure swallowed by `try?` in `save()` is not modelled: `Save` always succeeds. Encoding these plain records does not fail.
- `deleteTask(at:)` traps in Swift on an out-of-range offset. That is modelled as a precondition of `DeleteTaskAt` that every offset is a valid position.
- `@Published` change notifications and the SwiftUI views that observe the store are presentation code. So are their filtering, grouping, colours and non-empty-title checks.
- The `Constants.UI` sizes are floating-point layout values.
- `DateFormatter` and the view extensions are display formatting.
- Default arguments of the Swift `Task` initialiser are not modelled. A task is built with all its fields given, and `AddTask` passes `isCompleted = false`.
- Reading the collection is a read of the `tasks` field and needs no member of its own.
- `TaskModel.ReopenStore`: the save-then-load round trip is proved for the store, and assumed for the JSON encoder and decoder. That decoding the encoded list gives back the same list (for one, that `Date` survives its encoding as a floating-point number) is not checked.
