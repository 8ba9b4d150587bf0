/** Application-wide constants: the persistence key and the urgency thresholds,
    in whole days since a task was created. */
module Constants {

  /** Key under which the task collection is stored in the user defaults. */
  const TasksKey: string := "tasks"

  // Short tasks have a yellow and a red threshold and no orange one.
  const ShortYellow: int := 1
  const ShortRed: int := 2

  const MediumYellow: int := 2
  const MediumOrange: int := 3
  const MediumRed: int := 4

  const LongYellow: int := 4
  const LongOrange: int := 5
  const LongRed: int := 6

  /** The threshold values, per duration class. */
  lemma ThresholdValues()
    ensures ShortYellow == 1 && ShortRed == 2
    ensures MediumYellow == 2 && MediumOrange == 3 && MediumRed == 4
    ensures LongYellow == 4 && LongOrange == 5 && LongRed == 6
  {
  }

  /** Within each class the thresholds are at least one day and strictly increasing. */
  lemma ThresholdsIncreasing()
    ensures 1 <= ShortYellow < ShortRed
    ensures 1 <= MediumYellow < MediumOrange < MediumRed
    ensures 1 <= LongYellow < LongOrange < LongRed
  {
  }
}
