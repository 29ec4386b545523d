/** Types every module shares: optional values, scalar JSON values, anime ids. */
module Basics {

  datatype Option<+T> = None | Some(value: T)

  /** A value of a parsed JSON object; arrays and objects keep only their text. */
  datatype Json = Null | Bool(flag: bool) | Number(number: real) | Text(text: string) | Compound(json: string)

  /** `===` between values of two parses, `None` standing for `undefined`: two parsed arrays are never the same one. */
  predicate StrictlyEqual(a: Option<Json>, b: Option<Json>) { a == b && (a.Some? ==> !a.value.Compound?) }

  type AnimeId = string

  function Max(a: int, b: int): int { if a < b then b else a }
}
