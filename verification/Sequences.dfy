/** Sequences seen from their end, the way a loop that appends builds them. */
module Sequences {

  function Init<T>(s: seq<T>): seq<T>
    requires |s| > 0
  {
    s[..|s| - 1]
  }

  function Last<T>(s: seq<T>): T
    requires |s| > 0
  {
    s[|s| - 1]
  }

  /** The pieces one after another. */
  function Concat<T>(pieces: seq<seq<T>>): seq<T>
  {
    if |pieces| == 0 then [] else Concat(Init(pieces)) + Last(pieces)
  }
}
