/**
 * The schedule cursor: `get_next_schedule_time` (upload_vids.py), which
 * reads the persisted `last_scheduled_date` if the state file exists, and
 * otherwise starts from the current moment, then forces the time of day to
 * noon. The clock is a parameter.
 */
module Schedule {
  import opened Wrappers
  import opened Calendar
  import opened IsoDateTime

  /**
   * The state file `schedule_state.json` as the reader finds it: absent,
   * holding the string stored under `last_scheduled_date`, or unusable
   * (not JSON, or without that key: `json.load` or the lookup raises).
   */
  datatype StateFile = NoStateFile | StateRecord(lastScheduledDate: string) | UnreadableStateFile

  /** The exceptions `get_next_schedule_time` lets escape. */
  datatype ScheduleError =
    | MalformedState  // json.load, the key lookup or fromisoformat raised
    | DateOverflow    // the persisted date is 9999-12-31: adding a day raises OverflowError

  function NextScheduleTime(state: StateFile, now: DateTime): (r: Result<DateTime, ScheduleError>)
    requires now.Valid()
    ensures r.Success? ==> r.value.Valid() && r.value.IsNoon()
    ensures state.NoStateFile? ==> r.Success? && SameDate(r.value, now)
    ensures state.UnreadableStateFile? ==> r == Failure(MalformedState)
  {
    match state
    case NoStateFile => Success(AtNoon(now))
    case UnreadableStateFile => Failure(MalformedState)
    case StateRecord(text) =>
      match ParseIso(text)
      case None => Failure(MalformedState)
      case Some(last) =>
        match NextDay(last)
        case None => Failure(DateOverflow)
        case Some(next) => Success(AtNoon(next))
  }

  /**
   * After persisting `last` (written with `isoformat()`), the next slot is
   * noon of the calendar day after `last`'s date, whatever `last`'s time of
   * day, and whatever the clock says.
   */
  lemma NextSlotAfterPersisted(last: DateTime, now: DateTime)
    requires last.Valid() && now.Valid()
    ensures var r := NextScheduleTime(StateRecord(IsoFormat(last)), now);
      if IsLastRepresentableDay(last) then r == Failure(DateOverflow)
      else r.Success? && r.value.IsNoon() && Ordinal(r.value) == Ordinal(last) + 1
  {
    ParseIsoFormat(last);
    if !IsLastRepresentableDay(last) {
      NextDayOrdinal(last);
    }
  }

  /** Two persisted date-times on the same date give the same next slot. */
  lemma NextSlotIgnoresTimeOfDay(a: DateTime, b: DateTime, now: DateTime)
    requires a.Valid() && b.Valid() && now.Valid() && SameDate(a, b)
    ensures NextScheduleTime(StateRecord(IsoFormat(a)), now) == NextScheduleTime(StateRecord(IsoFormat(b)), now)
  {
    ParseIsoFormat(a);
    ParseIsoFormat(b);
    if !IsLastRepresentableDay(a) {
      var na, nb := NextDay(a).value, NextDay(b).value;
      NextDayOrdinal(a);
      NextDayOrdinal(b);
      OrdinalInjective(na, nb);
      assert AtNoon(na) == AtNoon(nb);
    }
  }

  /** A state text that is not a date-time in isoformat is a fatal error, not a fresh start. */
  lemma MalformedStateIsFatal(text: string, now: DateTime)
    requires now.Valid() && ParseIso(text).None?
    ensures NextScheduleTime(StateRecord(text), now) == Failure(MalformedState)
  {
  }

  /** No state file and the clock at 2026-01-24 10:00: the first slot is noon that same day. */
  lemma FirstRunExample()
    ensures NextScheduleTime(NoStateFile, DateTime(2026, 1, 24, 10, 0, 0, 0))
         == Success(DateTime(2026, 1, 24, 12, 0, 0, 0))
  {
  }

  /** A state file holding "2026-01-24T12:00:00": the next slot is 2026-01-25 at noon. */
  lemma PersistedExample(now: DateTime)
    requires now.Valid()
    ensures NextScheduleTime(StateRecord("2026-01-24T12:00:00"), now)
         == Success(DateTime(2026, 1, 25, 12, 0, 0, 0))
  {
    IsoFormatExample();
    ParseIsoFormat(DateTime(2026, 1, 24, 12, 0, 0, 0));
  }
}
