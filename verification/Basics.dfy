/** Types shared by every module of the model. */
module Basics {

  datatype Option<+T> = None | Some(value: T)

  /** Nanoseconds on an unbounded clock; 0 is the unset time, and every clock reading is positive. */
  type Time = int

  /** Nanoseconds; may be negative. */
  type Duration = int

  type Error = string

  function Max(a: int, b: int): int { if a < b then b else a }

  function Last<T>(s: seq<T>): T
    requires s != []
  {
    s[|s| - 1]
  }

  function Front<T>(s: seq<T>): seq<T>
    requires s != []
  {
    s[..|s| - 1]
  }

  lemma FrontOfSnoc<T>(s: seq<T>, x: T)
    ensures Front(s + [x]) == s && Last(s + [x]) == x
  {
  }
}
