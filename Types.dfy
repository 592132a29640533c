/** Records shared by the pages: an exercise, a feedback item and the small
    enumerations they use. Mirrors src/types.ts. */
module Types {

  datatype Option<T> = None | Some(value: T)

  /** The difficulty union `'beginner' | 'intermediate' | 'advanced'`. */
  datatype Difficulty = Beginner | Intermediate | Advanced

  /** The severity union `'low' | 'medium' | 'high'`. */
  datatype Severity = Low | Medium | High

  /** The string literal each difficulty stands for. */
  function DifficultyName(d: Difficulty): (r: string)
    ensures r in {"beginner", "intermediate", "advanced"}
  {
    match d
    case Beginner => "beginner"
    case Intermediate => "intermediate"
    case Advanced => "advanced"
  }

  /** Distinct difficulties have distinct names, so comparing names compares difficulties. */
  lemma DifficultyNameInjective(a: Difficulty, b: Difficulty)
    ensures DifficultyName(a) == DifficultyName(b) <==> a == b
  {
    if a != b {
      assert DifficultyName(a)[0] != DifficultyName(b)[0];
    }
  }

  /** Static reference data for one exercise. */
  datatype Exercise = Exercise(
    id: string,
    name: string,
    description: string,
    targetMuscles: seq<string>,
    difficulty: Difficulty,
    imageUrl: string)

  /** One canned correction message. `timestamp` is milliseconds; `bodyPart` is optional. */
  datatype FeedbackItem = FeedbackItem(
    id: string,
    message: string,
    severity: Severity,
    timestamp: int,
    bodyPart: Option<string>)
}
