/**
 Solved shifts and breaks as the worker holds them between the engine's answer
 and the commit. Times are microseconds; a shift is on duty from `start` up to
 but excluding `end`, and a break likewise.
 */
module Shifts {

  datatype Scope = Scope(tenant: string, schedule: string, location: string)

  /** The worker's name-based ids, kept as the parts they are derived from. */
  datatype Id =
    | ShiftId(scope: Scope, staff: string, start: int, end: int, role: string)
    | BreakId(shift: Id, index: int, start: int, end: int, kind: string)
    | OtherId(name: string)

  datatype Break = Break(id: Id, start: int, end: int, paid: bool, kind: string)

  datatype Shift = Shift(id: Id, staff: string, start: int, end: int, role: string, breaks: seq<Break>)
}
