/** The application-root copy of the task model. Its store is the same code as
    TaskModel.TaskStore except that the persistence key is written inline, and its
    urgency rule writes the thresholds as integer literals. Both differences are
    shown here to change nothing. */
module LiteralTaskModel {
  import Constants
  import opened TaskModel

  /** The key the root copy's save and load use. */
  const TasksKey: string := "tasks"

  /** The root copy's urgency rule, with the thresholds written as literals. */
  function LiteralUrgencyOf(duration: TaskDuration, daysSinceCreation: int): UrgencyLevel
  {
    match duration
    case Short =>
      if daysSinceCreation >= 2 then Red
      else if daysSinceCreation >= 1 then Yellow
      else Normal
    case Medium =>
      if daysSinceCreation >= 4 then Red
      else if daysSinceCreation >= 3 then Orange
      else if daysSinceCreation >= 2 then Yellow
      else Normal
    case Long =>
      if daysSinceCreation >= 6 then Red
      else if daysSinceCreation >= 5 then Orange
      else if daysSinceCreation >= 4 then Yellow
      else Normal
  }

  /** For every duration class and every day count, the literal rule and the
      rule written with the named thresholds give the same urgency. */
  lemma LiteralUrgencyAgrees(duration: TaskDuration, daysSinceCreation: int)
    ensures LiteralUrgencyOf(duration, daysSinceCreation) == UrgencyOf(duration, daysSinceCreation)
  {
  }

  /** Hence the literal rule also picks the highest threshold reached. */
  lemma LiteralUrgencyIsHighestReached(duration: TaskDuration, daysSinceCreation: int)
    ensures Reached(duration, daysSinceCreation, LiteralUrgencyOf(duration, daysSinceCreation))
    ensures forall other :: Reached(duration, daysSinceCreation, other) ==>
      Severity(other) <= Severity(LiteralUrgencyOf(duration, daysSinceCreation))
  {
    LiteralUrgencyAgrees(duration, daysSinceCreation);
  }

  /** Both copies persist the collection under the same key. */
  lemma SameTasksKey()
    ensures TasksKey == Constants.TasksKey
  {
  }
}
