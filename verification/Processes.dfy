/** One reading of the process table, and the clock arithmetic that identity checks rest on. */
module Processes {
  import opened Basics

  /**
   * A moment, in nanoseconds since the first instant of year 1; that instant is Go's zero time and
   * stands for "unknown".
   */
  type Moment = int

  const UNKNOWN: Moment := 0
  const SECOND: int := 1_000_000_000
  const MIN_DURATION: int := -0x8000_0000_0000_0000
  const MAX_DURATION: int := 0x7FFF_FFFF_FFFF_FFFF

  /** Time.Sub: a difference that does not fit 64 bits becomes the nearest one that does. */
  function Sub(a: Moment, b: Moment): int {
    if a - b < MIN_DURATION then MIN_DURATION else if a - b > MAX_DURATION then MAX_DURATION else a - b
  }

  /** Negation of a 64-bit duration: the smallest one is its own negation. */
  function Negate(d: int): int {
    if d == MIN_DURATION then MIN_DURATION else -d
  }

  datatype Row = Row(pid: int, cmdline: string, lstart: Moment)

  /** None when there is no lister or it fails. */
  type Listing = Option<seq<Row>>

  const BROKER_MARKER := "app-server-broker.mjs"

  predicate Contains(s: string, part: string) {
    exists i :: 0 <= i <= |s| && part <= s[i..]
  }

  function FirstWithPid(rows: seq<Row>, pid: int): (row: Option<Row>)
    ensures row.None? <==> forall r :: r in rows ==> r.pid != pid
    ensures row.Some? ==> row.value in rows && row.value.pid == pid
  {
    if rows == [] then None else if rows[0].pid == pid then Some(rows[0]) else FirstWithPid(rows[1..], pid)
  }

  /** A listing that shows no row for the pid.  A failed listing never counts as an exit. */
  predicate ShowsGone(rows: Listing, pid: int) {
    rows.Some? && FirstWithPid(rows.value, pid).None?
  }
}
