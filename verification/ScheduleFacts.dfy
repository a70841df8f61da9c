/**
 What occurrences and the transactions entered from them say, field by field
 (`src/domain/schedule.rs`, lines 140-292, and `src/service/schedule_service.rs`, lines 31-148).
 */
module ScheduleFacts {
  import opened Wrappers
  import opened Cents
  import opened Calendar
  import opened Entities
  import opened Recurrences
  import opened Occurrences
  import opened ScheduleServices

  // ----- Dates --------------------------------------------------------------------------------

  /** How many days lie between two occurrences; none for a recurrence by months. */
  function DayStep(r: Recurrence): nat {
    match r
    case Daily => 1
    case Weekly => 7
    case EveryTwoWeeks => 14
    case CustomDays(n) => n
    case Monthly => 0
    case Yearly => 0
  }

  /** The date is cut off by the end of the schedule and otherwise shown. */
  predicate ShownUntilEnd(schedule: Schedule, date: Date, r: Option<Date>) {
    r == if schedule.endDate.Some? && Before(schedule.endDate.value, date) then None else Some(date)
  }

  lemma NotAfterOrBefore(a: Date, b: Date)
    ensures NotAfter(a, b) <==> !Before(b, a)
  {
  }

  lemma RawByDays(schedule: Schedule, q: U32)
    requires !schedule.recurrence.Monthly? && !schedule.recurrence.Yearly?
    ensures var step := DayStep(schedule.recurrence);
            && q * step >= 0
            && (step == 0 ==> OccurrenceDate(schedule, q) == Err(InvalidCustomInterval))
            && (step > 0 ==> RawDate(schedule, q) == AddDaysChecked(schedule.startDate, q * step))
  {
    hide AddDaysChecked;
  }

  lemma DaysAdded(start: Date, days: nat)
    ensures var raw, day := AddDaysChecked(start, days), Ordinal(start) + days;
            if day > Ordinal(MAX_DATE) then raw == Err(DateOutOfRange) else raw.Ok? && Ordinal(raw.value) == day
  {
    hide Ordinal;
    OrdinalBounds(start);
    if AddDaysChecked(start, days).Ok? {
      AddDaysExact(start, days, AddDaysChecked(start, days).value);
    }
  }

  /** The end of the schedule decides whether a computed date is shown. */
  lemma ShownOrNot(schedule: Schedule, q: U32)
    ensures RawDate(schedule, q).Err? ==> OccurrenceDate(schedule, q) == Err(RawDate(schedule, q).error)
    ensures RawDate(schedule, q).Ok? ==>
              OccurrenceDate(schedule, q).Ok? && ShownUntilEnd(schedule, RawDate(schedule, q).value, OccurrenceDate(schedule, q).value)
  {
    hide RawDate;
  }

  /** Occurrences by days: the day so many steps after the start, if the calendar has it and the end allows it. */
  lemma {:induction false} DayDates(schedule: Schedule, q: U32)
    requires !schedule.recurrence.Monthly? && !schedule.recurrence.Yearly?
    ensures var r, step := OccurrenceDate(schedule, q), DayStep(schedule.recurrence);
            var day := Ordinal(schedule.startDate) + q * step;
            if step == 0 then r == Err(InvalidCustomInterval)
            else if day > Ordinal(MAX_DATE) then r == Err(DateOutOfRange)
            else r.Ok? && exists date: Date :: Ordinal(date) == day && ShownUntilEnd(schedule, date, r.value)
  {
    var step, start := DayStep(schedule.recurrence), schedule.startDate;
    RawByDays(schedule, q);
    if step > 0 {
      DaysAdded(start, q * step);
      ShownOrNot(schedule, q);
      hide Ordinal, FromOrdinal, AddDaysChecked, RawDate, OccurrenceDate;
    }
  }

  /** Occurrences by months: the start day, or the last day of a shorter month, so many months after the start. */
  lemma {:induction false} MonthDates(schedule: Schedule, q: U32)
    requires schedule.recurrence.Monthly? || schedule.recurrence.Yearly?
    ensures var r, months := OccurrenceDate(schedule, q), if schedule.recurrence.Monthly? then q else 12 * q;
            var start := schedule.startDate;
            var index := start.year * 12 + start.month - 1 + months;
            if months > MAX_U32 then r == Err(DateOutOfRange)
            else if index >= MAX_YEAR * 12 + 11 then r == Err(Aborted)
            else r.Ok? && exists date: Date ::
                   && date.year * 12 + date.month - 1 == index
                   && date.day == Min(start.day, MonthLength(date.year, date.month))
                   && ShownUntilEnd(schedule, date, r.value)
  {
    var months := if schedule.recurrence.Monthly? then q else 12 * q;
    if months <= MAX_U32 {
      hide AddMonthsClamped;
      MonthAnchored(schedule.startDate, months);
      var raw := RawDate(schedule, q);
      assert raw == AddMonthsClamped(schedule.startDate, months);
      if raw.Ok? {
        assert ShownUntilEnd(schedule, raw.value, OccurrenceDate(schedule, q).value);
      }
    }
  }

  // ----- Generated entries --------------------------------------------------------------------

  /** A new occurrence of a schedule: pending, dated by its sequence number, with the schedule's particulars. */
  predicate IsNewOccurrence(schedule: Schedule, key: Key, o: Occurrence) {
    && key == (schedule.id, o.sequence) && o.scheduleId == schedule.id
    && OccurrenceDate(schedule, o.sequence) == Ok(Some(o.date))
    && o.amount == schedule.amount && o.payeeId == schedule.payeeId && o.categoryId == schedule.categoryId
    && o.disposition == Pending
    && o.identity.Scheduled? && o.identity.scheduleId == schedule.id
    && o.identity.date == o.date && o.identity.version == schedule.version
    && o.id.identity == o.identity
  }

  /**
   Every entry that a refresh adds is a new occurrence of the schedule dated from today through the
   look-ahead date; an inactive schedule gets none.
   */
  lemma {:induction false} RefreshAddsNewOccurrences(schedule: Schedule, today: Date, lookAheadDays: U32, values: Entries)
    ensures var r := Refresh(schedule, today, lookAheadDays, values);
            && (forall key :: key in values ==> key in r.values && r.values[key] == values[key])
            && (forall key :: key in r.values && key !in values ==>
                  && schedule.active && IsNewOccurrence(schedule, key, r.values[key])
                  && !Before(r.values[key].date, today)
                  && Ordinal(r.values[key].date) <= Ordinal(today) + lookAheadDays)
            && (!schedule.active ==> r.outcome == Ok([]))
            && (schedule.active && Ordinal(today) + lookAheadDays > Ordinal(MAX_DATE) ==> r.outcome == Err(InvalidLookAhead))
  {
    hide OccurrenceDate, RefreshFrom, Ordinal, FromOrdinal;
    OrdinalBounds(today);
    var last := AddDays(today, lookAheadDays);
    if schedule.active && last.Some? {
      RefreshOnlyAdds(schedule, today, last.value, 0, values);
      AddDaysExact(today, lookAheadDays, last.value);
      var after := Refresh(schedule, today, lookAheadDays, values).values;
      forall key | key in after && key !in values
        ensures !Before(after[key].date, today) && Ordinal(after[key].date) <= Ordinal(today) + lookAheadDays
      {
        OrderIsOrdinal(last.value, after[key].date);
      }
    }
  }

  /** Sequence `q`, dated on `date` in the window and without an entry, would repeat the identity of an entry of the schedule. */
  ghost predicate WouldRepeat(schedule: Schedule, today: Date, through: Date, values: Entries, q: U32, date: Date) {
    && OccurrenceDate(schedule, q) == Ok(Some(date)) && !Before(date, today) && !Before(through, date)
    && (schedule.id, q) !in values
    && exists key :: key in values && values[key].scheduleId == schedule.id
                     && values[key].identity == Scheduled(schedule.id, date, schedule.version)
  }

  lemma BlockedIsRepeat(schedule: Schedule, today: Date, through: Date, values: Entries, q: U32)
    ensures Blocked(schedule, today, through, values, q)
       <==> exists date: Date :: WouldRepeat(schedule, today, through, values, q, date)
  {
    hide OccurrenceDate, Before;
    if Blocked(schedule, today, through, values, q) {
      var date := OccurrenceDate(schedule, q).value.value;
      NotAfterOrBefore(today, date);
      NotAfterOrBefore(date, through);
      assert WouldRepeat(schedule, today, through, values, q, date);
    }
    if exists date: Date :: WouldRepeat(schedule, today, through, values, q, date) {
      var date: Date :| WouldRepeat(schedule, today, through, values, q, date);
      NotAfterOrBefore(today, date);
      NotAfterOrBefore(date, through);
      assert InWindow(schedule, today, through, q);
    }
  }

  /** A refresh reports a duplicate exactly when some sequence number of its window would repeat an identity. */
  lemma {:induction false} DuplicateReported(schedule: Schedule, today: Date, through: Date, values: Entries)
    ensures RefreshFrom(schedule, today, through, 0, values).outcome == Err(DuplicateOccurrenceIdentity)
       <==> exists q: U32, date: Date :: WouldRepeat(schedule, today, through, values, q, date)
  {
    hide OccurrenceDate, RefreshFrom, Before;
    DuplicateExactly(schedule, today, through, 0, values);
    forall q: U32
      ensures Blocked(schedule, today, through, values, q)
         <==> exists date: Date :: WouldRepeat(schedule, today, through, values, q, date)
    {
      BlockedIsRepeat(schedule, today, through, values, q);
    }
    hide Blocked, WouldRepeat;
    assert (exists q: U32 :: 0 <= q && Blocked(schedule, today, through, values, q))
      <==> (exists q: U32, date: Date :: WouldRepeat(schedule, today, through, values, q, date)) by {
      if exists q: U32, date: Date :: WouldRepeat(schedule, today, through, values, q, date) {
        var q: U32, date: Date :| WouldRepeat(schedule, today, through, values, q, date);
        assert Blocked(schedule, today, through, values, q);
      }
    }
  }

  // ----- What commands write ------------------------------------------------------------------

  /** The first entry with an id, in the order of schedule and sequence number. */
  predicate IsFirst(values: Entries, id: OccurrenceId, pendingOnly: bool, key: Key) {
    && key in values && values[key].id == id && (pendingOnly ==> values[key].disposition == Pending)
    && forall other :: other in values && values[other].id == id && (pendingOnly ==> values[other].disposition == Pending) ==>
         other == key || key.0 < other.0 || (key.0 == other.0 && key.1 < other.1)
  }

  lemma FirstIsFound(values: Entries, id: OccurrenceId, pendingOnly: bool)
    ensures var found := Find(values, id, pendingOnly);
            && (found.Some? ==> IsFirst(values, id, pendingOnly, found.value))
            && (found.None? ==> forall key :: !IsFirst(values, id, pendingOnly, key))
            && (forall key :: IsFirst(values, id, pendingOnly, key) ==> found == Some(key))
  {
    var found := Find(values, id, pendingOnly);
    if found.Some? {
      assert found.value in Candidates(values, id, pendingOnly);
      forall other | other in values && Matches(values[other], id, pendingOnly)
        ensures other == found.value || KeyLess(found.value, other)
      {
        assert other in Candidates(values, id, pendingOnly);
      }
      assert IsFirst(values, id, pendingOnly, found.value);
    }
    forall key | IsFirst(values, id, pendingOnly, key)
      ensures found == Some(key)
    {
      assert key in Candidates(values, id, pendingOnly);
      assert IsFirst(values, id, pendingOnly, found.value);
    }
  }

  /** A definition is stored as given if its first date can be computed, an edited one under the next version. */
  lemma DefinitionWrites(state: State, schedule: Schedule)
    ensures var created, edited := Apply(state, Create(schedule)), Apply(state, Edit(schedule));
            && (created.error.None? <==> OccurrenceDate(schedule, 0).Ok?)
            && (created.error.None? ==> created.state == state.(schedules := state.schedules[schedule.id := schedule]))
            && (edited.error.None? <==> schedule.id in state.schedules && OccurrenceDate(schedule, 0).Ok?)
            && (edited.error.None? ==>
                  && schedule.id in edited.state.schedules
                  && var stored := edited.state.schedules[schedule.id];
                     && edited.state == state.(schedules := state.schedules[schedule.id := stored])
                     && stored.(version := schedule.version) == schedule
                     && stored.version == Min(schedule.version + 1, MAX_U32))
  {
    hide OccurrenceDate;
  }

  /** Switching a schedule on or off changes nothing else. */
  lemma ActivationWrites(state: State, id: ScheduleId, active: bool)
    ensures var r := Apply(state, SetActive(id, active));
            && (r.error.None? <==> id in state.schedules)
            && (r.error.None? ==>
                  && id in r.state.schedules && r.state == state.(schedules := state.schedules[id := r.state.schedules[id]])
                  && r.state.schedules[id].active == active
                  && r.state.schedules[id].(active := state.schedules[id].active) == state.schedules[id])
  {
  }

  lemma PendingFound(values: Entries, id: OccurrenceId)
    ensures forall key :: IsFirst(values, id, true, key) ==> key in values && values[key].disposition == Pending
  {
  }

  /** Skipping or dismissing settles the first pending entry with the id and changes nothing else. */
  lemma {:induction false} DispositionWrites(state: State, id: OccurrenceId, dismiss: bool)
    ensures var r := Apply(state, ScheduleServices.Command.Dispose(id, dismiss));
            && (r.error.None? <==> exists key :: IsFirst(state.occurrences, id, true, key))
            && forall key :: IsFirst(state.occurrences, id, true, key) ==>
                 && key in r.state.occurrences
                 && var o := r.state.occurrences[key];
                    && r.state == state.(occurrences := state.occurrences[key := o])
                    && o.disposition == (if dismiss then Dismissed else Skipped)
                    && o.(disposition := Pending) == state.occurrences[key]
  {
    hide IsFirst, Find;
    FirstIsFound(state.occurrences, id, true);
    PendingFound(state.occurrences, id);
  }

  /** Modifying gives the first pending entry with the id another date and amount, and an identity that says so. */
  lemma {:induction false} ModificationWrites(state: State, id: OccurrenceId, date: Date, amount: Money)
    ensures var r := Apply(state, ModifyBeforeEntry(id, date, amount));
            && (r.error.None? <==> exists key :: IsFirst(state.occurrences, id, true, key))
            && forall key :: IsFirst(state.occurrences, id, true, key) ==>
                 && key in state.occurrences && key in r.state.occurrences
                 && var before, o := state.occurrences[key], r.state.occurrences[key];
                    && r.state == state.(occurrences := state.occurrences[key := o])
                    && o.date == date && o.amount == amount
                    && o.identity == Modified(before.scheduleId, before.date, date, before.sequence)
                    && o.(date := before.date, amount := before.amount, identity := before.identity) == before
  {
    hide IsFirst, Find;
    FirstIsFound(state.occurrences, id, true);
    PendingFound(state.occurrences, id);
  }

  /** The transaction entered from an occurrence: its date, amount, payee and category, on the schedule's account. */
  predicate EnteredFrom(o: Occurrence, schedule: Schedule, budgetId: BudgetId, t: Transaction) {
    && t.budgetId == budgetId && t.accountId == schedule.accountId
    && t.date == o.date && t.amount == o.amount && t.payeeId == o.payeeId
    && (o.categoryId.Some? ==> t.body == Categorized(o.categoryId.value))
    && (o.categoryId.None? ==> t.body == OpeningBalance(None))
    && t.clearance == Uncleared && t.approval == Approved && !t.archived && !t.voided
    && t.memo == Some("Entered from schedule")
  }

  /** An entry can be entered when it is the first with the id, pending, and its schedule is known. */
  predicate CanEnter(state: State, id: OccurrenceId, key: Key) {
    && IsFirst(state.occurrences, id, false, key)
    && state.occurrences[key].disposition == Pending && state.occurrences[key].scheduleId in state.schedules
  }

  /** Entering stores one transaction and marks one entry with it, and changes nothing else. */
  lemma {:induction false} EntryWrites(state: State, id: OccurrenceId, budgetId: BudgetId, transactionId: TransactionId)
    ensures var r := Apply(state, EnterNow(id, budgetId, transactionId));
            && (r.error.None? <==> exists key :: CanEnter(state, id, key))
            && (r.error.Some? ==> r.state == state)
            && forall key :: CanEnter(state, id, key) ==>
                 && key in state.occurrences && transactionId in r.state.transactions
                 && var o, t := state.occurrences[key], r.state.transactions[transactionId];
                    && r.state == state.(occurrences := state.occurrences[key := o.(disposition := Entered(transactionId))],
                                         transactions := state.transactions[transactionId := t])
                    && o.scheduleId in state.schedules
                    && t.id == transactionId && EnteredFrom(o, state.schedules[o.scheduleId], budgetId, t)
  {
    hide Find;
    FirstIsFound(state.occurrences, id, false);
    var found := Find(state.occurrences, id, false);
    if found.Some? && state.occurrences[found.value].disposition == Pending {
      PendingIsFirst(state.occurrences, id);
      if state.occurrences[found.value].scheduleId in state.schedules {
        assert CanEnter(state, id, found.value);
      }
    }
  }

  /** Why an occurrence is not entered: none is pending under the id, or its schedule is gone. */
  lemma {:induction false} EntryFails(state: State, id: OccurrenceId, budgetId: BudgetId, transactionId: TransactionId)
    ensures var error := Apply(state, EnterNow(id, budgetId, transactionId)).error;
            && (error == Some(OccurrenceUnavailable) <==>
                  forall key :: IsFirst(state.occurrences, id, false, key) ==> state.occurrences[key].disposition != Pending)
            && (error == Some(ScheduleNotFound) <==>
                  exists key :: IsFirst(state.occurrences, id, false, key) && state.occurrences[key].disposition == Pending
                                && state.occurrences[key].scheduleId !in state.schedules)
  {
    hide Find;
    FirstIsFound(state.occurrences, id, false);
    var found := Find(state.occurrences, id, false);
    if found.Some? && state.occurrences[found.value].disposition == Pending {
      PendingIsFirst(state.occurrences, id);
      assert IsFirst(state.occurrences, id, false, found.value);
    }
  }

  /** What callers are shown of an occurrence. */
  predicate ShowsOccurrence(o: Occurrence, p: Projection) {
    && p.id == o.id && p.identity == o.identity && p.scheduleId == o.scheduleId
    && p.date == o.date && p.amount == o.amount && p.disposition == o.disposition
  }

  predicate InUse(values: Entries, id: OccurrenceId) {
    exists key :: key in values && values[key].id == id
  }

  /** A projection shows the first occurrence under its id. */
  ghost predicate ShowsFirst(values: Entries, id: OccurrenceId, p: Projection) {
    exists key :: IsFirst(values, id, false, key) && ShowsOccurrence(values[key], p)
  }

  lemma ProjectedShows(values: Entries, id: OccurrenceId, key: Key)
    requires IsFirst(values, id, false, key)
    ensures ShowsFirst(values, id, Project(values[key]))
  {
    assert ShowsOccurrence(values[key], Project(values[key]));
  }

  lemma InUseIsFound(values: Entries, id: OccurrenceId)
    requires InUse(values, id)
    ensures Find(values, id, false).Some?
    ensures var key := Find(values, id, false).value; key in values && IsFirst(values, id, false, key)
  {
    var key :| key in values && values[key].id == id;
    assert key in Candidates(values, id, false);
    FirstIsFound(values, id, false);
  }

  /** The projections of a list of ids that are all in use show, one after another, the first occurrence under each. */
  lemma {:induction false} ProjectionsShow(values: Entries, ids: seq<OccurrenceId>)
    requires forall i :: 0 <= i < |ids| ==> InUse(values, ids[i])
    ensures |Projections(values, ids)| == |ids|
    ensures forall i :: 0 <= i < |ids| ==> ShowsFirst(values, ids[i], Projections(values, ids)[i])
  {
    hide Find, ShowsFirst, InUse;
    if ids != [] {
      var n := |ids| - 1;
      var init := ids[..n];
      assert forall i :: 0 <= i < n ==> init[i] == ids[i];
      ProjectionsShow(values, init);
      InUseIsFound(values, ids[n]);
      var key := Find(values, ids[n], false).value;
      assert Projections(values, ids) == Projections(values, init) + [Project(values[key])];
      ProjectedShows(values, ids[n], key);
    }
  }

  // ----- From the schedule to the transaction -------------------------------------------------

  /** No command of the list modifies the occurrence. */
  predicate NeverModified(commands: seq<Command>, id: OccurrenceId) {
    forall i :: 0 <= i < |commands| ==> !(commands[i].ModifyBeforeEntry? && commands[i].id == id)
  }

  lemma {:induction false} CommandKeepsOccurrence(state: State, command: Command, key: Key)
    requires key in state.occurrences
    requires !(command.ModifyBeforeEntry? && command.id == state.occurrences[key].id)
    ensures var after := Apply(state, command).state.occurrences;
            key in after && after[key].(disposition := Pending) == state.occurrences[key].(disposition := Pending)
  {
    hide OccurrenceDate, RefreshFrom;
    match command
    case RefreshSeries(id, today, lookAheadDays) =>
      if id in state.schedules {
        RefreshAddsNewOccurrences(state.schedules[id], today, lookAheadDays, state.occurrences);
      }
    case EnterNow(id, _, _) => PendingCandidate(state.occurrences, id);
    case Dispose(id, _) => PendingCandidate(state.occurrences, id);
    case ModifyBeforeEntry(id, _, _) => PendingCandidate(state.occurrences, id);
    case _ =>
  }

  /** An occurrence that is never modified keeps everything but its disposition, whatever happens otherwise. */
  lemma {:induction false} UnmodifiedKeeps(state: State, commands: seq<Command>, key: Key)
    requires key in state.occurrences && NeverModified(commands, state.occurrences[key].id)
    ensures var after := Run(state, commands).occurrences;
            key in after && after[key].(disposition := Pending) == state.occurrences[key].(disposition := Pending)
    decreases |commands|
  {
    if commands != [] {
      hide Apply;
      CommandKeepsOccurrence(state, commands[0], key);
      var next := Apply(state, commands[0]).state;
      assert next.occurrences[key].id == state.occurrences[key].(disposition := Pending).id;
      UnmodifiedKeeps(next, commands[1..], key);
    }
  }

  /** A refresh command adds new occurrences of the stored schedule. */
  lemma RefreshCommandAdds(state: State, id: ScheduleId, today: Date, lookAheadDays: U32, key: Key)
    requires key !in state.occurrences && key in Apply(state, RefreshSeries(id, today, lookAheadDays)).state.occurrences
    ensures id in state.schedules
    ensures IsNewOccurrence(state.schedules[id], key, Apply(state, RefreshSeries(id, today, lookAheadDays)).state.occurrences[key])
  {
    hide Refresh, IsNewOccurrence;
    if id in state.schedules {
      RefreshAddsNewOccurrences(state.schedules[id], today, lookAheadDays, state.occurrences);
    }
  }

  /**
   From the schedule to the ledger: an occurrence that a refresh added is entered, after any run that
   does not modify it and leaves ids unique, with the date, amount, payee and category that the
   schedule had at the refresh, on the account that it has at the entry.
   */
  lemma {:induction false} EnteredAsScheduled(state: State, refresh: Command, key: Key, commands: seq<Command>,
                                              budgetId: BudgetId, transactionId: TransactionId)
    requires refresh.RefreshSeries? && key !in state.occurrences
    requires key in Apply(state, refresh).state.occurrences
    requires var id := Apply(state, refresh).state.occurrences[key].id;
             && NeverModified(commands, id)
             && UniqueIds(Run(Apply(state, refresh).state, commands).occurrences)
             && Apply(Run(Apply(state, refresh).state, commands), EnterNow(id, budgetId, transactionId)).error.None?
    ensures refresh.scheduleId in state.schedules
    ensures var id := Apply(state, refresh).state.occurrences[key].id;
            var before := Run(Apply(state, refresh).state, commands);
            var after := Apply(before, EnterNow(id, budgetId, transactionId)).state;
            var schedule := state.schedules[refresh.scheduleId];
            && key in after.occurrences && after.occurrences[key].disposition == Entered(transactionId)
            && transactionId in after.transactions
            && var t := after.transactions[transactionId];
               && OccurrenceDate(schedule, key.1) == Ok(Some(t.date))
               && t.amount == schedule.amount && t.payeeId == schedule.payeeId
               && t.body == (if schedule.categoryId.None? then OpeningBalance(None) else Categorized(schedule.categoryId.value))
               && schedule.id in before.schedules && t.accountId == before.schedules[schedule.id].accountId
  {
    hide Apply, Run, OccurrenceDate;
    RefreshCommandAdds(state, refresh.scheduleId, refresh.today, refresh.lookAheadDays, key);
    var added := Apply(state, refresh).state;
    var o := added.occurrences[key];
    UnmodifiedKeeps(added, commands, key);
    var before := Run(added, commands);
    assert before.occurrences[key].(disposition := Pending).id == o.(disposition := Pending).id;
    EntryWrites(before, o.id, budgetId, transactionId);
    var entered :| CanEnter(before, o.id, entered);
    assert entered == key;
  }
}
