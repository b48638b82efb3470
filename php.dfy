/** The few facilities of the PHP runtime that the bill-board code relies on. */
module Php {

  /** A value that may be PHP's `null`. */
  datatype Option<+T> = None | Some(value: T)

  /** PHP's conversion of a nullable string to a string, as done by `(string)` and by
      the `.` operator: `null` becomes the empty string. */
  function StringCast(v: Option<string>): string
  {
    match v
    case Some(s) => s
    case None => ""
  }

  /** The wall clock read by `new \DateTime("now")`, as an integer instant.
      Every reading is at least the previous one. */
  class Clock {
    /** The most recent reading handed out. */
    var last: int

    constructor (start: int)
      ensures last == start
    {
      last := start;
    }

    method Now() returns (t: int)
      modifies this
      ensures old(last) <= t && last == t
    {
      t :| last <= t;
      last := t;
    }
  }
}
