/** The colour names the pages hand to their chips and progress bars. */
module Colors {

  datatype Color = Success | Warning | Error | Default | Primary

  /**
   * `getDifficultyColor`, which the catalog and the admin course table define identically:
   * the three known levels get success, warning and error, and any other text gets default.
   */
  function DifficultyColor(difficulty: string): (c: Color)
    ensures c == Success <==> difficulty == "Beginner"
    ensures c == Warning <==> difficulty == "Intermediate"
    ensures c == Error <==> difficulty == "Advanced"
    ensures c == Default <==> difficulty !in {"Beginner", "Intermediate", "Advanced"}
  {
    match difficulty
    case "Beginner" => Success
    case "Intermediate" => Warning
    case "Advanced" => Error
    case _ => Default
  }
}
