/** The campaign controller's activation logic (the campaign's on/off state is
    always backed by schedule rows), the country pivot builder, and the
    `variants` and `is_running` columns of the campaign listing. */
module CampaignController {
  import opened Wrappers
  import opened PhpValues
  import opened Schedules

  const ActivatedMessage: string := "Campaign was activated and is running."
  const DeactivatedMessage: string := "Campaign was deactivated, all schedules were stopped."
  const ActivateScheduleMode: string := "activate-schedule"

  /** The warning shown after an explicit schedule was added; `formatted` is
      the start time as Carbon's day-date-time format spells it. */
  function ScheduleAddedMessage(formatted: string): string
  {
    "Schedule with start time '" + formatted + "' added"
  }

  // -----------------------------------------------------------------------
  // Specification of the schedule transitions

  /** `$campaign->schedules()->scope()` selects this row. */
  predicate InScope(s: Schedule, campaignId: int, now: Time, scope: Scope)
  {
    s.campaignId == campaignId && scope(s, now)
  }

  /** `$campaign->schedules()->scope()->count()` is not zero. */
  predicate AnyInScope(rows: seq<Schedule>, campaignId: int, now: Time, scope: Scope)
  {
    exists i :: 0 <= i < |rows| && InScope(rows[i], campaignId, now, scope)
  }

  /** The schedule a manual activation creates. */
  function ExecutedSchedule(campaignId: int, now: Time): Schedule
  {
    Schedule(campaignId, now, None, Some(Executed))
  }

  /** The schedules after startCampaignSchedule, and whether it added one. */
  function Start(rows: seq<Schedule>, campaignId: int, now: Time, running: Scope): (seq<Schedule>, bool)
  {
    if AnyInScope(rows, campaignId, now, running) then (rows, false)
    else (rows + [ExecutedSchedule(campaignId, now)], true)
  }

  function StopRow(s: Schedule, now: Time): Schedule
  {
    s.(status := Some(Stopped), end := Some(now))
  }

  function StopIfInScope(s: Schedule, campaignId: int, now: Time, scope: Scope): Schedule
  {
    if InScope(s, campaignId, now, scope) then StopRow(s, now) else s
  }

  /** The schedules after stopCampaignSchedule. */
  function StopAll(rows: seq<Schedule>, campaignId: int, now: Time, scope: Scope): (r: seq<Schedule>)
    ensures |r| == |rows|
  {
    if rows == [] then []
    else [StopIfInScope(rows[0], campaignId, now, scope)] + StopAll(rows[1..], campaignId, now, scope)
  }

  /** The schedules and the message after toggleSchedules. The order is the
      request value as it arrives: null means no order, otherwise its PHP
      truthiness decides, so a string such as "off" activates. */
  function Toggle(rows: seq<Schedule>, campaignId: int, activate: Value, now: Time, scopes: Scopes)
    : (seq<Schedule>, Option<string>)
  {
    if activate == Null then (rows, None)
    else if Truthy(activate) then
      var (rows', activated) := Start(rows, campaignId, now, scopes.running);
      (rows', if activated then Some(ActivatedMessage) else None)
    else
      (StopAll(rows, campaignId, now, scopes.runningOrPlanned),
       if AnyInScope(rows, campaignId, now, scopes.runningOrPlanned) then Some(DeactivatedMessage) else None)
  }

  /** The schedules and the message after processCampaignActivation. */
  function Activation(rows: seq<Schedule>, campaignId: int, mode: Value, activate: Value,
                      newStart: Option<Time>, newEnd: Option<Time>, now: Time, scopes: Scopes,
                      dayDateTime: Time -> string): (seq<Schedule>, Option<string>)
  {
    if mode == Str(ActivateScheduleMode) && newStart.Some? then
      (rows + [Schedule(campaignId, newStart.value, newEnd, None)],
       Some(ScheduleAddedMessage(dayDateTime(newStart.value))))
    else Toggle(rows, campaignId, activate, now, scopes)
  }

  // -----------------------------------------------------------------------
  // Properties of the specification

  /** Stopping works row by row: a row of this campaign in the scope is
      STOPPED with end time now, every other row is left as it was, and no
      row is added or removed. */
  lemma {:induction false} StopAllAt(rows: seq<Schedule>, campaignId: int, now: Time, scope: Scope, k: int)
    requires 0 <= k < |rows|
    ensures |StopAll(rows, campaignId, now, scope)| == |rows|
    ensures InScope(rows[k], campaignId, now, scope) ==>
              StopAll(rows, campaignId, now, scope)[k] == rows[k].(status := Some(Stopped), end := Some(now))
    ensures !InScope(rows[k], campaignId, now, scope) ==> StopAll(rows, campaignId, now, scope)[k] == rows[k]
  {
    if k > 0 {
      StopAllAt(rows[1..], campaignId, now, scope, k - 1);
    } else if |rows| > 1 {
      StopAllAt(rows[1..], campaignId, now, scope, 0);
    }
  }

  /** Activating twice in a row: the first call adds one EXECUTED schedule
      when nothing runs, the second adds nothing and reports no change, as
      long as the running scope selects the schedule the first call made. */
  lemma StartTwice(rows: seq<Schedule>, campaignId: int, now: Time, running: Scope)
    requires !AnyInScope(rows, campaignId, now, running)
    requires running(ExecutedSchedule(campaignId, now), now)
    ensures Start(rows, campaignId, now, running) == (rows + [ExecutedSchedule(campaignId, now)], true)
    ensures Start(Start(rows, campaignId, now, running).0, campaignId, now, running).1 == false
    ensures Start(Start(rows, campaignId, now, running).0, campaignId, now, running).0
            == Start(rows, campaignId, now, running).0
  {
    var rows' := rows + [ExecutedSchedule(campaignId, now)];
    assert InScope(rows'[|rows|], campaignId, now, running);
  }

  /** After stopping, no schedule of the campaign is left in a scope that
      never selects stopped schedules, so stopping again changes nothing and
      reports nothing. */
  lemma StopTwice(rows: seq<Schedule>, campaignId: int, now: Time, scope: Scope)
    requires ExcludesStopped(scope)
    ensures !AnyInScope(StopAll(rows, campaignId, now, scope), campaignId, now, scope)
    ensures StopAll(StopAll(rows, campaignId, now, scope), campaignId, now, scope) == StopAll(rows, campaignId, now, scope)
  {
    var once := StopAll(rows, campaignId, now, scope);
    forall k | 0 <= k < |rows|
      ensures !InScope(once[k], campaignId, now, scope)
    {
      StopAllAt(rows, campaignId, now, scope, k);
    }
    var twice := StopAll(once, campaignId, now, scope);
    forall k | 0 <= k < |once|
      ensures twice[k] == once[k]
    {
      StopAllAt(once, campaignId, now, scope, k);
    }
  }

  /** Without an order nothing changes and there is no message; a truthy
      order reports only when it added a schedule, any other order only when
      some schedule was running or planned. */
  lemma ToggleMessages(rows: seq<Schedule>, campaignId: int, activate: Value, now: Time, scopes: Scopes)
    ensures activate == Null ==> Toggle(rows, campaignId, activate, now, scopes) == (rows, None)
    ensures Truthy(activate) ==>
              Toggle(rows, campaignId, activate, now, scopes).1
              == (if AnyInScope(rows, campaignId, now, scopes.running) then None else Some(ActivatedMessage))
    ensures activate != Null && !Truthy(activate) ==>
              Toggle(rows, campaignId, activate, now, scopes).1
              == (if AnyInScope(rows, campaignId, now, scopes.runningOrPlanned) then Some(DeactivatedMessage) else None)
  {
  }

  /** The order is the raw request value: the strings "off" and "false"
      start the campaign, and only null, false, 0, "", "0" and an empty
      array stop it. */
  lemma ToggleOrderIsTruthiness(rows: seq<Schedule>, campaignId: int, now: Time, scopes: Scopes)
    ensures Toggle(rows, campaignId, Str("off"), now, scopes) == Toggle(rows, campaignId, Bool(true), now, scopes)
    ensures Toggle(rows, campaignId, Str("false"), now, scopes) == Toggle(rows, campaignId, Bool(true), now, scopes)
    ensures Toggle(rows, campaignId, Str("0"), now, scopes) == Toggle(rows, campaignId, Bool(false), now, scopes)
    ensures Toggle(rows, campaignId, Int(0), now, scopes) == Toggle(rows, campaignId, Bool(false), now, scopes)
  {
    assert Truthy(Str("off")) && Truthy(Str("false"));
    assert !Truthy(Str("0"));
  }

  /** toggleSchedules reports a message exactly when it changed the
      schedules, given a stop scope that never selects stopped schedules. */
  lemma ToggleMessageIffChanged(rows: seq<Schedule>, campaignId: int, activate: Value, now: Time, scopes: Scopes)
    requires ExcludesStopped(scopes.runningOrPlanned)
    ensures Toggle(rows, campaignId, activate, now, scopes).1.Some?
            <==> Toggle(rows, campaignId, activate, now, scopes).0 != rows
  {
    if activate != Null && !Truthy(activate) {
      var scope := scopes.runningOrPlanned;
      var stopped := StopAll(rows, campaignId, now, scope);
      if AnyInScope(rows, campaignId, now, scope) {
        var i :| 0 <= i < |rows| && InScope(rows[i], campaignId, now, scope);
        StopAllAt(rows, campaignId, now, scope, i);
        assert stopped[i].status != rows[i].status;
      } else {
        forall k | 0 <= k < |rows|
          ensures stopped[k] == rows[k]
        {
          StopAllAt(rows, campaignId, now, scope, k);
        }
      }
    } else if activate != Null {
      var (rows', activated) := Start(rows, campaignId, now, scopes.running);
      assert activated ==> |rows'| == |rows| + 1;
    }
  }

  /** With an explicit start time in activate-schedule mode, exactly one
      schedule with the given window is added and toggleSchedules is not
      consulted; otherwise the result is toggleSchedules' result. */
  lemma ActivationCases(rows: seq<Schedule>, campaignId: int, mode: Value, activate: Value,
                        newStart: Option<Time>, newEnd: Option<Time>, now: Time, scopes: Scopes,
                        dayDateTime: Time -> string)
    ensures var (rows', msg) := Activation(rows, campaignId, mode, activate, newStart, newEnd, now, scopes, dayDateTime);
            if mode == Str(ActivateScheduleMode) && newStart.Some? then
              && |rows'| == |rows| + 1 && rows'[..|rows|] == rows
              && rows'[|rows|].campaignId == campaignId
              && rows'[|rows|].start == newStart.value && rows'[|rows|].end == newEnd
              && msg.Some?
            else (rows', msg) == Toggle(rows, campaignId, activate, now, scopes)
  {
  }

  // -----------------------------------------------------------------------
  // The controller's operations on the schedules table

  /** startCampaignSchedule: if none of the campaign's schedules runs, add an
      EXECUTED schedule starting now. Returns whether one was added. */
  method StartCampaignSchedule(table: ScheduleTable, campaignId: int, now: Time, running: Scope)
    returns (activated: bool)
    modifies table
    ensures activated == !AnyInScope(old(table.rows), campaignId, now, running)
    ensures table.rows == if activated then old(table.rows) + [ExecutedSchedule(campaignId, now)] else old(table.rows)
  {
    activated := false;
    if !AnyInScope(table.rows, campaignId, now, running) {
      table.rows := table.rows + [ExecutedSchedule(campaignId, now)];
      activated := true;
    }
  }

  /** stopCampaignSchedule: every running or planned schedule of the campaign
      becomes STOPPED with end time now. Returns whether any was stopped. */
  method StopCampaignSchedule(table: ScheduleTable, campaignId: int, now: Time, runningOrPlanned: Scope)
    returns (stopped: bool)
    modifies table
    ensures stopped == AnyInScope(old(table.rows), campaignId, now, runningOrPlanned)
    ensures table.rows == StopAll(old(table.rows), campaignId, now, runningOrPlanned)
  {
    ghost var before := table.rows;
    stopped := false;
    var i := 0;
    while i < |table.rows|
      invariant 0 <= i <= |table.rows| == |before|
      invariant forall k :: 0 <= k < i ==> table.rows[k] == StopIfInScope(before[k], campaignId, now, runningOrPlanned)
      invariant forall k :: i <= k < |before| ==> table.rows[k] == before[k]
      invariant stopped <==> exists k :: 0 <= k < i && InScope(before[k], campaignId, now, runningOrPlanned)
    {
      var schedule := table.rows[i];
      if InScope(schedule, campaignId, now, runningOrPlanned) {
        table.rows := table.rows[i := StopRow(schedule, now)];
        stopped := true;
      }
      i := i + 1;
    }
    var after := StopAll(before, campaignId, now, runningOrPlanned);
    forall k | 0 <= k < |before|
      ensures table.rows[k] == after[k]
    {
      StopAllAt(before, campaignId, now, runningOrPlanned, k);
    }
  }

  /** toggleSchedules: no order leaves the schedules alone; activation starts
      a schedule, deactivation stops them all. The message says what changed. */
  method ToggleSchedules(table: ScheduleTable, campaignId: int, activate: Value, now: Time, scopes: Scopes)
    returns (message: Option<string>)
    modifies table
    ensures (table.rows, message) == Toggle(old(table.rows), campaignId, activate, now, scopes)
  {
    if activate == Null {
      return None;
    }
    message := None;
    if Truthy(activate) {
      var activated := StartCampaignSchedule(table, campaignId, now, scopes.running);
      if activated {
        message := Some(ActivatedMessage);
      }
    } else {
      var stopped := StopCampaignSchedule(table, campaignId, now, scopes.runningOrPlanned);
      if stopped {
        message := Some(DeactivatedMessage);
      }
    }
  }

  /** toggleActive: flip the campaign's current `active` state through its
      schedules. */
  method ToggleActive(table: ScheduleTable, campaignId: int, active: bool, now: Time, scopes: Scopes)
    modifies table
    ensures table.rows == Toggle(old(table.rows), campaignId, Bool(!active), now, scopes).0
  {
    var activate := false;
    if !active {
      activate := true;
    }
    var _ := ToggleSchedules(table, campaignId, Bool(activate), now, scopes);
  }

  /** processCampaignActivation: an explicit schedule in activate-schedule
      mode, otherwise toggleSchedules with the requested order. The mode and
      the order are the request values as the callers read them, unvalidated. */
  method ProcessCampaignActivation(table: ScheduleTable, campaignId: int, mode: Value, activate: Value,
                                   newStart: Option<Time>, newEnd: Option<Time>, now: Time, scopes: Scopes,
                                   dayDateTime: Time -> string)
    returns (message: Option<string>)
    modifies table
    ensures (table.rows, message)
            == Activation(old(table.rows), campaignId, mode, activate, newStart, newEnd, now, scopes, dayDateTime)
  {
    if mode == Str(ActivateScheduleMode) && newStart.Some? {
      var schedule := Schedule(campaignId, newStart.value, newEnd, None);
      table.rows := table.rows + [schedule];
      return Some(ScheduleAddedMessage(dayDateTime(schedule.start)));
    } else {
      message := ToggleSchedules(table, campaignId, activate, now, scopes);
    }
  }

  // -----------------------------------------------------------------------
  // Country pivot rows

  datatype Pivot = Pivot(blacklisted: bool)

  /** processCountries: the pivot rows to sync, one per country id, all with
      the same blacklist flag. */
  method ProcessCountries(countries: seq<string>, blacklist: bool) returns (processed: map<string, Pivot>)
    ensures processed.Keys == set c | c in countries
    ensures forall c :: c in processed ==> processed[c] == Pivot(blacklist)
  {
    processed := map[];
    for i := 0 to |countries|
      invariant processed.Keys == set c | c in countries[..i]
      invariant forall c :: c in processed ==> processed[c] == Pivot(blacklist)
    {
      assert countries[..i + 1] == countries[..i] + [countries[i]];
      processed := processed[countries[i] := Pivot(blacklist)];
    }
    assert countries[..|countries|] == countries;
  }

  // -----------------------------------------------------------------------
  // The listing's `variants` and `is_running` columns

  /** A campaign banner as the listing sees it; `link` is the rendered link
      to the banner's edit page. */
  datatype Variant = Variant(proportion: int, controlGroup: int, link: string)

  /** The variants the column shows: those whose proportion is not 0, in order. */
  function Shown(variants: seq<Variant>): seq<Variant>
  {
    if variants == [] then []
    else
      var last := variants[|variants| - 1];
      Shown(variants[..|variants| - 1]) + (if last.proportion == 0 then [] else [last])
  }

  function Label(v: Variant): string
  {
    (if v.controlGroup == 1 then "Control Group" else v.link) + "&nbsp;(" + IntToDecimal(v.proportion) + "%)"
  }

  /** The shown variants are exactly the input's variants with a non-zero
      proportion, in their original order. */
  lemma {:induction false} ShownExactly(variants: seq<Variant>)
    ensures forall v :: v in Shown(variants) <==> v in variants && v.proportion != 0
    ensures |Shown(variants)| <= |variants|
    ensures (forall v :: v in variants ==> v.proportion != 0) ==> Shown(variants) == variants
  {
    if variants != [] {
      var n := |variants| - 1;
      var init, last := variants[..n], variants[n];
      assert variants == init + [last];
      ShownExactly(init);
      assert Shown(variants) == Shown(init) + (if last.proportion == 0 then [] else [last]);
      forall v
        ensures v in Shown(variants) <==> v in variants && v.proportion != 0
      {
        assert v in variants <==> v in init || v == last;
      }
      if forall v :: v in variants ==> v.proportion != 0 {
        assert forall v :: v in init ==> v in variants;
      }
    }
  }

  /** The positions in the input of the shown variants. */
  function ShownIndices(variants: seq<Variant>): seq<int>
  {
    if variants == [] then []
    else
      var n := |variants| - 1;
      ShownIndices(variants[..n]) + (if variants[n].proportion == 0 then [] else [n])
  }

  /** The shown variants are the non-zero ones as an order-preserving
      subsequence of the input: the j-th shown variant sits at the j-th of a
      strictly increasing list of positions, and that list holds every
      position whose proportion is not 0, so each of them is shown exactly
      once. */
  lemma {:induction false} ShownInOrder(variants: seq<Variant>)
    ensures |ShownIndices(variants)| == |Shown(variants)|
    ensures forall j :: 0 <= j < |ShownIndices(variants)| ==>
              && 0 <= ShownIndices(variants)[j] < |variants|
              && Shown(variants)[j] == variants[ShownIndices(variants)[j]]
    ensures forall j, k :: 0 <= j < k < |ShownIndices(variants)| ==> ShownIndices(variants)[j] < ShownIndices(variants)[k]
    ensures forall i :: 0 <= i < |variants| && variants[i].proportion != 0 ==> i in ShownIndices(variants)
  {
    if variants != [] {
      var n := |variants| - 1;
      var init, last := variants[..n], variants[n];
      ShownInOrder(init);
      var idx, shown := ShownIndices(init), Shown(init);
      var tail := if last.proportion == 0 then [] else [n];
      assert ShownIndices(variants) == idx + tail;
      assert Shown(variants) == shown + (if last.proportion == 0 then [] else [last]);
      forall j | 0 <= j < |idx|
        ensures Shown(variants)[j] == variants[idx[j]]
      {
        assert Shown(variants)[j] == shown[j] == init[idx[j]];
      }
      forall i | 0 <= i < |variants| && variants[i].proportion != 0
        ensures i in ShownIndices(variants)
      {
        if i < n {
          assert init[i] == variants[i];
        }
      }
    }
  }

  /** A control group's label names the control group; any other variant's
      label starts with its banner link. Both end with the proportion. */
  lemma LabelShape(v: Variant)
    ensures v.controlGroup == 1 ==> StartsWith(Label(v), "Control Group&nbsp;(")
    ensures v.controlGroup != 1 ==> StartsWith(Label(v), v.link + "&nbsp;(")
    ensures EndsWith(Label(v), IntToDecimal(v.proportion) + "%)")
  {
    var head := if v.controlGroup == 1 then "Control Group" else v.link;
    assert Label(v) == (head + "&nbsp;(") + (IntToDecimal(v.proportion) + "%)");
  }

  /** One more variant extends the shown list by itself or by nothing. */
  lemma ShownStep(variants: seq<Variant>, i: nat)
    requires i < |variants|
    ensures Shown(variants[..i + 1])
            == Shown(variants[..i]) + (if variants[i].proportion == 0 then [] else [variants[i]])
  {
    assert variants[..i + 1][..i] == variants[..i];
  }

  /** The `variants` column: one label per variant with a non-zero proportion. */
  method VariantsColumn(variants: seq<Variant>) returns (labels: seq<string>)
    ensures |labels| == |Shown(variants)|
    ensures forall i :: 0 <= i < |labels| ==> labels[i] == Label(Shown(variants)[i])
  {
    labels := [];
    for i := 0 to |variants|
      invariant |labels| == |Shown(variants[..i])|
      invariant forall j :: 0 <= j < |labels| ==> labels[j] == Label(Shown(variants[..i])[j])
    {
      var variant := variants[i];
      ShownStep(variants, i);
      if variant.proportion != 0 {
        var text: string;
        if variant.controlGroup == 1 {
          text := "Control Group&nbsp;(" + IntToDecimal(variant.proportion) + "%)";
        } else {
          text := variant.link + "&nbsp;(" + IntToDecimal(variant.proportion) + "%)";
        }
        assert text == Label(variant);
        labels := labels + [text];
      }
    }
    assert variants[..|variants|] == variants;
  }

  /** The `is_running` column: whether any of the campaign's schedules
      reports isRunning(). */
  method IsRunningColumn(schedules: seq<Schedule>, now: Time, isRunning: Scope) returns (running: bool)
    ensures running <==> exists i :: 0 <= i < |schedules| && isRunning(schedules[i], now)
  {
    for i := 0 to |schedules|
      invariant forall j :: 0 <= j < i ==> !isRunning(schedules[j], now)
    {
      if isRunning(schedules[i], now) {
        return true;
      }
    }
    return false;
  }
}
