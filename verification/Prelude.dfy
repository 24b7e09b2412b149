/** Small shared vocabulary: optional values and the numeric helpers the Go code leans on. */
module Prelude {
  datatype Option<+T> = None | Some(value: T) {
    function GetOr(default: T): T {
      match this
      case Some(v) => v
      case None => default
    }
  }

  function Max(a: int, b: int): int { if a >= b then a else b }

  function Min(a: int, b: int): int { if a <= b then a else b }

  /** The first non-empty string, or the empty string (anthropic.go:686-693). */
  function FirstNonEmpty(vals: seq<string>): string {
    if vals == [] then "" else if vals[0] != "" then vals[0] else FirstNonEmpty(vals[1..])
  }
}
