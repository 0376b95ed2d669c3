/** A campaign's activation windows: the rows of the schedules table, and
    the query scopes the campaign controller selects them with. */
module Schedules {
  import opened Wrappers

  /** A point in time, in seconds. */
  type Time = int

  datatype Status = Planned | Running | Executed | Stopped

  /** One row of the schedules table. `status` is None when the row was saved
      without setting it, which leaves the column to its database default. */
  datatype Schedule = Schedule(campaignId: int, start: Time, end: Option<Time>, status: Option<Status>)

  /** A query scope of the Schedule model (`running()`, `runningOrPlanned()`)
      or its `isRunning()` test, evaluated at a given time. Their definitions
      are not part of this model, so every operation takes them as given. */
  type Scope = (Schedule, Time) -> bool

  datatype Scopes = Scopes(running: Scope, runningOrPlanned: Scope)

  /** A scope that never selects a stopped schedule. */
  ghost predicate ExcludesStopped(scope: Scope)
  {
    forall s: Schedule, t: Time :: s.status == Some(Stopped) ==> !scope(s, t)
  }

  /** The schedules table: every campaign's schedules, in insertion order. */
  class ScheduleTable {
    var rows: seq<Schedule>

    constructor (initial: seq<Schedule>)
      ensures rows == initial
    {
      rows := initial;
    }
  }
}
