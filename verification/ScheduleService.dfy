/** Commands on schedules and what holds of every run of them (`src/service/schedule_service.rs`). */
module ScheduleServices {
  import opened Wrappers
  import opened Cents
  import opened Calendar
  import opened Entities
  import opened Recurrences
  import opened Occurrences

  datatype State = State(
    schedules: map<ScheduleId, Schedule>,
    occurrences: Entries,
    transactions: map<TransactionId, Transaction>)

  const INITIAL := State(map[], map[], map[])

  /** `transactionId` is the fresh identifier that entering an occurrence draws. */
  datatype Command =
    | Create(schedule: Schedule)
    | Edit(schedule: Schedule)
    | SetActive(scheduleId: ScheduleId, active: bool)
    | RefreshSeries(scheduleId: ScheduleId, today: Date, lookAheadDays: U32)
    | EnterNow(id: OccurrenceId, budgetId: BudgetId, transactionId: TransactionId)
    | Dispose(id: OccurrenceId, dismiss: bool)
    | ModifyBeforeEntry(id: OccurrenceId, date: Date, amount: Money)

  datatype Outcome = Outcome(state: State, error: Option<ScheduleError>)

  function SaturatingIncrement(version: U32): U32 {
    if version == MAX_U32 then version else version + 1
  }

  function EnteredTransaction(o: Occurrence, schedule: Schedule, budgetId: BudgetId, id: TransactionId): Transaction {
    Transaction(id, budgetId, schedule.accountId, o.date, o.payeeId, o.amount, Some("Entered from schedule"),
                Uncleared, Approved,
                match o.categoryId case None => OpeningBalance(None) case Some(c) => Categorized(c),
                false, false)
  }

  /** Entering reads the first entry with the id, but marks the first that is still pending. */
  ghost function Enter(state: State, id: OccurrenceId, budgetId: BudgetId, transactionId: TransactionId): Outcome {
    var key := Find(state.occurrences, id, false);
    if key.None? || state.occurrences[key.value].disposition != Pending then Outcome(state, Some(OccurrenceUnavailable))
    else
      var o := state.occurrences[key.value];
      if o.scheduleId !in state.schedules then Outcome(state, Some(ScheduleNotFound))
      else
        var t := EnteredTransaction(o, state.schedules[o.scheduleId], budgetId, transactionId);
        match Occurrences.Dispose(state.occurrences, id, Entered(transactionId))
        case Err(e) => Outcome(state, Some(e))
        case Ok(values) =>
          Outcome(state.(occurrences := values, transactions := state.transactions[transactionId := t]), None)
  }

  ghost function Apply(state: State, command: Command): Outcome {
    match command
    case Create(schedule) =>
      (match OccurrenceDate(schedule, 0)
       case Err(e) => Outcome(state, Some(e))
       case Ok(_) => Outcome(state.(schedules := state.schedules[schedule.id := schedule]), None))
    case Edit(schedule) =>
      if schedule.id !in state.schedules then Outcome(state, Some(ScheduleNotFound))
      else
        (match OccurrenceDate(schedule, 0)
         case Err(e) => Outcome(state, Some(e))
         case Ok(_) =>
           var edited := schedule.(version := SaturatingIncrement(schedule.version));
           Outcome(state.(schedules := state.schedules[schedule.id := edited]), None))
    case SetActive(id, active) =>
      if id !in state.schedules then Outcome(state, Some(ScheduleNotFound))
      else Outcome(state.(schedules := state.schedules[id := state.schedules[id].(active := active)]), None)
    case RefreshSeries(id, today, lookAheadDays) =>
      if id !in state.schedules then Outcome(state, Some(ScheduleNotFound))
      else
        var r := Refresh(state.schedules[id], today, lookAheadDays, state.occurrences);
        Outcome(state.(occurrences := r.values), if r.outcome.Ok? then None else Some(r.outcome.error))
    case EnterNow(id, budgetId, transactionId) => Enter(state, id, budgetId, transactionId)
    case Dispose(id, dismiss) =>
      (match Occurrences.Dispose(state.occurrences, id, if dismiss then Dismissed else Skipped)
       case Err(e) => Outcome(state, Some(e))
       case Ok(values) => Outcome(state.(occurrences := values), None))
    case ModifyBeforeEntry(id, date, amount) =>
      (match Modify(state.occurrences, id, date, amount)
       case Err(e) => Outcome(state, Some(e))
       case Ok(values) => Outcome(state.(occurrences := values), None))
  }

  // ----- Runs ---------------------------------------------------------------------------------

  /** The series definition that was current under each version a schedule has had. */
  type History = map<(ScheduleId, U32), Schedule>

  predicate SameSeries(a: Schedule, b: Schedule) {
    a.startDate == b.startDate && a.recurrence == b.recurrence
  }

  /** The identifier of an entered transaction is drawn fresh; schedules may be created and edited at will. */
  predicate Fresh(state: State, command: Command) {
    command.EnterNow? ==> command.transactionId !in state.transactions
  }

  /**
   Also the identifier of a new schedule is fresh, and an edit starts from the stored version; at the
   last version, which an edit cannot raise, it keeps the series.
   */
  predicate Legal(state: State, command: Command) {
    match command
    case Create(schedule) => schedule.id !in state.schedules
    case Edit(schedule) =>
      schedule.id in state.schedules ==>
        && schedule.version == state.schedules[schedule.id].version
        && (schedule.version == MAX_U32 ==> SameSeries(schedule, state.schedules[schedule.id]))
    case _ => Fresh(state, command)
  }

  ghost function Remember(state: State, history: History, command: Command): History {
    if Apply(state, command).error.Some? then history
    else
      match command
      case Create(schedule) => history[(schedule.id, schedule.version) := schedule]
      case Edit(schedule) =>
        var key := (schedule.id, SaturatingIncrement(schedule.version));
        if key in history then history else history[key := schedule]
      case _ => history
  }

  ghost predicate HistoryCurrent(state: State, history: History) {
    && (forall id :: id in state.schedules ==>
          && state.schedules[id].id == id
          && (id, state.schedules[id].version) in history
          && SameSeries(history[(id, state.schedules[id].version)], state.schedules[id]))
    && (forall k :: k in history ==> k.0 in state.schedules && k.1 <= state.schedules[k.0].version)
  }

  /** An entry's id names its schedule, the version it was generated under and its generated date. */
  ghost predicate Traced(key: Key, o: Occurrence, history: History) {
    && o.scheduleId == key.0 && o.sequence == key.1
    && o.id.identity.Scheduled?
    && o.id.identity.scheduleId == key.0
    && (key.0, o.id.identity.version) in history
    && RawDate(history[(key.0, o.id.identity.version)], key.1) == Ok(o.id.identity.date)
  }

  ghost predicate EntriesTraced(state: State, history: History) {
    forall key :: key in state.occurrences ==> Traced(key, state.occurrences[key], history)
  }

  /** An entry still has the identity that its id is made from, or one that tells it was modified. */
  ghost predicate Identified(values: Entries) {
    forall key :: key in values ==> values[key].identity == values[key].id.identity || values[key].identity.Modified?
  }

  ghost predicate Claims(state: State, key: Key, t: TransactionId) {
    key in state.occurrences && state.occurrences[key].disposition == Entered(t)
  }

  /** Entered occurrences and transactions correspond one to one, with the same date and amount. */
  ghost predicate EnteredOnce(state: State) {
    && (forall key, t :: Claims(state, key, t) ==>
          && t in state.transactions
          && state.transactions[t].id == t
          && state.transactions[t].date == state.occurrences[key].date
          && state.transactions[t].amount == state.occurrences[key].amount)
    && (forall a, b, t :: Claims(state, a, t) && Claims(state, b, t) ==> a == b)
    && (forall t :: t in state.transactions ==> exists key :: Claims(state, key, t))
  }

  ghost predicate Invariant(state: State, history: History) {
    HistoryCurrent(state, history) && EntriesTraced(state, history) && Identified(state.occurrences)
  }

  /** Distinct sequence numbers of one series have distinct dates, so traced ids are unique. */
  lemma {:induction false} TracedIdsAreUnique(state: State, history: History)
    requires EntriesTraced(state, history)
    ensures UniqueIds(state.occurrences)
  {
    hide RawDate;
    var values := state.occurrences;
    forall a, b | a in values && b in values && values[a].id == values[b].id
      ensures a == b
    {
      assert Traced(a, values[a], history) && Traced(b, values[b], history);
      var series := history[(a.0, values[a].id.identity.version)];
      if a.1 < b.1 {
        RawDatesSpread(series, a.1, b.1);
        assert false;
      } else if b.1 < a.1 {
        RawDatesSpread(series, b.1, a.1);
        assert false;
      }
    }
  }

  /** When the first entry with an id is pending it is the first pending one, repeated ids or not. */
  lemma PendingIsFirst(values: Entries, id: OccurrenceId)
    requires Find(values, id, false).Some?
    requires var key := Find(values, id, false).value; key in values && values[key].disposition == Pending
    ensures Find(values, id, true) == Find(values, id, false)
  {
    var first := Find(values, id, false).value;
    assert first in Candidates(values, id, false);
    assert first in Candidates(values, id, true);
    var pending := Find(values, id, true).value;
    assert pending in Candidates(values, id, true);
    assert pending in Candidates(values, id, false);
  }

  lemma PendingCandidate(values: Entries, id: OccurrenceId)
    ensures var found := Find(values, id, true);
            found.Some? ==> found.value in values && values[found.value].disposition == Pending
                            && values[found.value].id == id
  {
    var found := Find(values, id, true);
    if found.Some? {
      assert found.value in Candidates(values, id, true);
    }
  }

  /** Which entries a command may touch: a settled one never changes, and none disappears. */
  lemma SettledEntriesStay(state: State, command: Command, key: Key)
    requires key in state.occurrences && state.occurrences[key].disposition != Pending
    ensures var after := Apply(state, command).state.occurrences;
            key in after && after[key] == state.occurrences[key]
  {
    hide OccurrenceDate, RefreshFrom;
    match command
    case RefreshSeries(id, today, lookAheadDays) =>
      if id in state.schedules && state.schedules[id].active && AddDays(today, lookAheadDays).Some? {
        RefreshOnlyAdds(state.schedules[id], today, AddDays(today, lookAheadDays).value, 0, state.occurrences);
      }
    case EnterNow(id, _, _) => PendingCandidate(state.occurrences, id);
    case Dispose(id, _) => PendingCandidate(state.occurrences, id);
    case ModifyBeforeEntry(id, _, _) => PendingCandidate(state.occurrences, id);
    case _ =>
  }

  /** Only definitions change schedules, except for their being active. */
  lemma SchedulesKept(state: State, command: Command)
    requires !command.Create? && !command.Edit?
    ensures var after := Apply(state, command).state.schedules;
            after.Keys == state.schedules.Keys
            && forall id :: id in after ==> after[id].(active := true) == state.schedules[id].(active := true)
  {
    hide Refresh, Modify, Occurrences.Dispose, Find;
  }

  /** Storing a definition under a version never seen before only adds to the history. */
  lemma DefinitionRecorded(state: State, history: History, stored: Schedule, written: Schedule)
    requires HistoryCurrent(state, history) && SameSeries(written, stored)
    requires stored.id in state.schedules ==> state.schedules[stored.id].version < stored.version
    ensures (stored.id, stored.version) !in history
    ensures HistoryCurrent(state.(schedules := state.schedules[stored.id := stored]),
                           history[(stored.id, stored.version) := written])
  {
  }

  /** Storing the same series under the last version again changes nothing that the history says. */
  lemma SeriesStored(state: State, history: History, stored: Schedule)
    requires HistoryCurrent(state, history) && stored.id in state.schedules
    requires state.schedules[stored.id].version == stored.version && SameSeries(stored, state.schedules[stored.id])
    ensures (stored.id, stored.version) in history
    ensures HistoryCurrent(state.(schedules := state.schedules[stored.id := stored]), history)
  {
  }

  lemma DefinitionKept(state: State, history: History, command: Command)
    requires HistoryCurrent(state, history) && Legal(state, command) && (command.Create? || command.Edit?)
    ensures var next := Remember(state, history, command);
            && HistoryCurrent(Apply(state, command).state, next)
            && (forall k :: k in history ==> k in next && next[k] == history[k])
  {
    hide OccurrenceDate, HistoryCurrent;
    if Apply(state, command).error.None? {
      var s := command.schedule;
      var stored := if command.Create? then s else s.(version := SaturatingIncrement(s.version));
      if command.Edit? && s.version == MAX_U32 {
        SeriesStored(state, history, stored);
      } else {
        DefinitionRecorded(state, history, stored, s);
      }
    }
  }

  lemma {:induction false} HistoryKept(state: State, history: History, command: Command)
    requires HistoryCurrent(state, history) && Legal(state, command)
    ensures var next := Remember(state, history, command);
            && HistoryCurrent(Apply(state, command).state, next)
            && (forall k :: k in history ==> k in next && next[k] == history[k])
  {
    hide OccurrenceDate, Apply;
    if !command.Create? && !command.Edit? {
      SchedulesKept(state, command);
    } else {
      DefinitionKept(state, history, command);
    }
  }

  lemma SameSeriesSameDates(a: Schedule, b: Schedule, sequence: U32)
    requires SameSeries(a, b)
    ensures RawDate(a, sequence) == RawDate(b, sequence)
  {
  }

  /** No command changes the id, schedule or sequence of an existing entry. */
  lemma EntryLineage(state: State, command: Command, key: Key)
    requires key in state.occurrences
    ensures var after, o := Apply(state, command).state.occurrences, state.occurrences[key];
            && key in after
            && after[key].id == o.id && after[key].scheduleId == o.scheduleId && after[key].sequence == o.sequence
  {
    hide OccurrenceDate, RefreshFrom;
    if command.RefreshSeries? && command.scheduleId in state.schedules {
      var s := state.schedules[command.scheduleId];
      if s.active && AddDays(command.today, command.lookAheadDays).Some? {
        RefreshOnlyAdds(s, command.today, AddDays(command.today, command.lookAheadDays).value, 0, state.occurrences);
      }
    }
  }

  predicate HistoryKeys(state: State) {
    forall id :: id in state.schedules ==> state.schedules[id].id == id
  }

  lemma PendingKeysOnly(state: State, command: Command)
    requires !command.RefreshSeries?
    ensures Apply(state, command).state.occurrences.Keys == state.occurrences.Keys
  {
    hide OccurrenceDate;
    match command
    case EnterNow(id, _, _) => PendingCandidate(state.occurrences, id);
    case Dispose(id, _) => PendingCandidate(state.occurrences, id);
    case ModifyBeforeEntry(id, _, _) => PendingCandidate(state.occurrences, id);
    case _ =>
  }

  lemma {:induction false} SameIds(state: State, command: Command)
    requires Apply(state, command).state.occurrences.Keys == state.occurrences.Keys && UniqueIds(state.occurrences)
    ensures UniqueIds(Apply(state, command).state.occurrences)
  {
    hide Apply;
    forall key | key in state.occurrences
      ensures Apply(state, command).state.occurrences[key].id == state.occurrences[key].id
    {
      EntryLineage(state, command, key);
    }
  }

  /** Only a refresh makes entries, and it makes them from the stored schedule. */
  lemma {:induction false} NewEntry(state: State, command: Command, key: Key)
    requires HistoryKeys(state)
    requires key in Apply(state, command).state.occurrences && key !in state.occurrences
    ensures command.RefreshSeries? && key.0 in state.schedules
    ensures var schedule, o := state.schedules[key.0], Apply(state, command).state.occurrences[key];
            && RawDate(schedule, key.1).Ok?
            && o == Generated(schedule, key.1, RawDate(schedule, key.1).value)
  {
    hide RefreshFrom, RawDate;
    if command.RefreshSeries? && command.scheduleId in state.schedules {
      var s := state.schedules[command.scheduleId];
      if s.active && AddDays(command.today, command.lookAheadDays).Some? {
        RefreshOnlyAdds(s, command.today, AddDays(command.today, command.lookAheadDays).value, 0, state.occurrences);
      }
    } else {
      PendingKeysOnly(state, command);
    }
  }

  lemma TraceKept(state: State, history: History, command: Command)
    requires HistoryCurrent(state, history) && EntriesTraced(state, history) && Legal(state, command)
    ensures EntriesTraced(Apply(state, command).state, Remember(state, history, command))
  {
    hide RawDate, RefreshFrom;
    var next := Remember(state, history, command);
    HistoryKept(state, history, command);
    var after := Apply(state, command).state.occurrences;
    forall key | key in after
      ensures Traced(key, after[key], next)
    {
      if key in state.occurrences {
        assert Traced(key, state.occurrences[key], history);
        EntryLineage(state, command, key);
      } else {
        NewEntry(state, command, key);
        var schedule := state.schedules[key.0];
        assert Traced(key, after[key], history) by {
          SameSeriesSameDates(schedule, history[(key.0, schedule.version)], key.1);
        }
      }
    }
  }

  /** A claim after a command is an old claim, or the one that entering has just made. */
  lemma ClaimsAfter(state: State, command: Command, key: Key, t: TransactionId)
    ensures var after := Apply(state, command);
            Claims(after.state, key, t) ==>
              || (Claims(state, key, t) && after.state.occurrences[key] == state.occurrences[key])
              || (command.EnterNow? && after.error.None? && t == command.transactionId
                  && Find(state.occurrences, command.id, true) == Some(key))
  {
    hide OccurrenceDate, RefreshFrom;
    match command
    case RefreshSeries(id, today, lookAheadDays) =>
      if id in state.schedules && state.schedules[id].active && AddDays(today, lookAheadDays).Some? {
        RefreshOnlyAdds(state.schedules[id], today, AddDays(today, lookAheadDays).value, 0, state.occurrences);
      }
    case EnterNow(id, _, _) => PendingCandidate(state.occurrences, id);
    case Dispose(id, _) => PendingCandidate(state.occurrences, id);
    case ModifyBeforeEntry(id, _, _) => PendingCandidate(state.occurrences, id);
    case _ =>
  }

  lemma EnteredOnceKept(state: State, command: Command)
    requires EnteredOnce(state) && Fresh(state, command)
    ensures EnteredOnce(Apply(state, command).state)
  {
    hide OccurrenceDate, Refresh;
    var after := Apply(state, command).state;
    if command.EnterNow? && Apply(state, command).error.None? {
      PendingIsFirst(state.occurrences, command.id);
    }
    forall key, t | Claims(after, key, t)
      ensures t in after.transactions && after.transactions[t].id == t
      ensures after.transactions[t].date == after.occurrences[key].date
      ensures after.transactions[t].amount == after.occurrences[key].amount
    {
      ClaimsAfter(state, command, key, t);
    }
    forall a, b, t | Claims(after, a, t) && Claims(after, b, t)
      ensures a == b
    {
      ClaimsAfter(state, command, a, t);
      ClaimsAfter(state, command, b, t);
    }
    forall t | t in after.transactions
      ensures exists key :: Claims(after, key, t)
    {
      if t in state.transactions {
        var key :| Claims(state, key, t);
        SettledEntriesStay(state, command, key);
        assert Claims(after, key, t);
      } else {
        PendingCandidate(state.occurrences, command.id);
        assert Claims(after, Find(state.occurrences, command.id, true).value, t);
      }
    }
  }

  lemma IdentifiedKept(state: State, command: Command)
    requires Identified(state.occurrences)
    ensures Identified(Apply(state, command).state.occurrences)
  {
    hide OccurrenceDate, RefreshFrom;
    match command
    case RefreshSeries(id, today, lookAheadDays) =>
      if id in state.schedules && state.schedules[id].active && AddDays(today, lookAheadDays).Some? {
        RefreshOnlyAdds(state.schedules[id], today, AddDays(today, lookAheadDays).value, 0, state.occurrences);
      }
    case EnterNow(id, _, _) => PendingCandidate(state.occurrences, id);
    case Dispose(id, _) => PendingCandidate(state.occurrences, id);
    case ModifyBeforeEntry(id, _, _) => PendingCandidate(state.occurrences, id);
    case _ =>
  }

  /** One command keeps the whole invariant. */
  lemma {:induction false} InvariantKept(state: State, history: History, command: Command)
    requires Invariant(state, history) && Legal(state, command)
    ensures Invariant(Apply(state, command).state, Remember(state, history, command))
  {
    hide Apply, Remember, Legal, HistoryCurrent, EntriesTraced, Identified;
    HistoryKept(state, history, command);
    TraceKept(state, history, command);
    IdentifiedKept(state, command);
  }

  /** An identity that a refresh could find in use belongs to the entry of that very sequence. */
  lemma {:induction false} NothingBlocked(state: State, history: History, id: ScheduleId, today: Date, through: Date, q: U32)
    requires Invariant(state, history) && id in state.schedules
    ensures !Blocked(state.schedules[id], today, through, state.occurrences, q)
  {
    hide RawDate;
    var s, values := state.schedules[id], state.occurrences;
    if Blocked(s, today, through, values, q) {
      var date := OccurrenceDate(s, q).value.value;
      var k :| k in values && values[k].identity == Scheduled(s.id, date, s.version) && values[k].scheduleId == s.id;
      assert Traced(k, values[k], history);
      SameSeriesSameDates(s, history[(id, s.version)], k.1);
      if k.1 < q {
        RawDatesSpread(s, k.1, q);
      } else if q < k.1 {
        RawDatesSpread(s, q, k.1);
      }
      assert false;
    }
  }

  /** While the invariant holds no command reports a duplicate identity. */
  lemma {:induction false} NoDuplicateReported(state: State, history: History, command: Command)
    requires Invariant(state, history)
    ensures Apply(state, command).error != Some(DuplicateOccurrenceIdentity)
  {
    match command
    case Create(schedule) => NoOtherError(schedule, 0);
    case Edit(schedule) => NoOtherError(schedule, 0);
    case RefreshSeries(id, today, lookAheadDays) =>
      hide OccurrenceDate, RefreshFrom, Invariant, Blocked;
      if id in state.schedules && state.schedules[id].active && AddDays(today, lookAheadDays).Some? {
        var through := AddDays(today, lookAheadDays).value;
        DuplicateExactly(state.schedules[id], today, through, 0, state.occurrences);
        forall q: U32 ensures !Blocked(state.schedules[id], today, through, state.occurrences, q) {
          NothingBlocked(state, history, id, today, through, q);
        }
      }
    case _ =>
  }

  /** The command is a refresh that would give a second entry the id of an existing one. */
  ghost predicate RefreshClashes(state: State, command: Command) {
    && command.RefreshSeries? && command.scheduleId in state.schedules
    && var s := state.schedules[command.scheduleId];
       && s.active && AddDays(command.today, command.lookAheadDays).Some?
       && Clashes(s, command.today, AddDays(command.today, command.lookAheadDays).value, state.occurrences)
  }

  /** For every command on every state: unique ids stay unique if and only if the command is no clashing refresh. */
  lemma {:induction false} CommandKeepsIdsExactly(state: State, command: Command)
    requires UniqueIds(state.occurrences)
    ensures UniqueIds(Apply(state, command).state.occurrences) <==> !RefreshClashes(state, command)
  {
    hide OccurrenceDate, RefreshFrom, Clashes;
    var after := Apply(state, command).state.occurrences;
    if command.RefreshSeries? {
      if command.scheduleId in state.schedules && AddDays(command.today, command.lookAheadDays).Some? {
        RefreshKeepsIdsExactly(state.schedules[command.scheduleId], command.today,
                               AddDays(command.today, command.lookAheadDays).value, state.occurrences);
      }
    } else {
      PendingKeysOnly(state, command);
      SameIds(state, command);
    }
  }

  /** Entries keep their ids, so an id once repeated stays repeated. */
  lemma {:induction false} RepeatedIdsStay(state: State, command: Command)
    requires !UniqueIds(state.occurrences)
    ensures !UniqueIds(Apply(state, command).state.occurrences)
  {
    hide Apply;
    var values := state.occurrences;
    var a, b :| a in values && b in values && values[a].id == values[b].id && a != b;
    EntryLineage(state, command, a);
    EntryLineage(state, command, b);
  }

  ghost function Run(state: State, commands: seq<Command>): State
    decreases |commands|
  {
    if commands == [] then state else Run(Apply(state, commands[0]).state, commands[1..])
  }

  ghost predicate LegalRun(state: State, commands: seq<Command>)
    decreases |commands|
  {
    commands == [] || (Legal(state, commands[0]) && LegalRun(Apply(state, commands[0]).state, commands[1..]))
  }

  ghost predicate FreshRun(state: State, commands: seq<Command>)
    decreases |commands|
  {
    commands == [] || (Fresh(state, commands[0]) && FreshRun(Apply(state, commands[0]).state, commands[1..]))
  }

  /** Some refresh of the run clashes. */
  ghost predicate RunClashes(state: State, commands: seq<Command>)
    decreases |commands|
  {
    commands != []
    && (RefreshClashes(state, commands[0]) || RunClashes(Apply(state, commands[0]).state, commands[1..]))
  }

  lemma {:induction false} RepeatedForever(state: State, commands: seq<Command>)
    requires !UniqueIds(state.occurrences)
    ensures !UniqueIds(Run(state, commands).occurrences)
    decreases |commands|
  {
    if commands != [] {
      hide Apply, UniqueIds;
      RepeatedIdsStay(state, commands[0]);
      RepeatedForever(Apply(state, commands[0]).state, commands[1..]);
    }
  }

  /** For every run, with any creations and edits: ids stay unique if and only if no refresh of the run clashes. */
  lemma {:induction false} RunKeepsIdsExactly(state: State, commands: seq<Command>)
    requires UniqueIds(state.occurrences)
    ensures UniqueIds(Run(state, commands).occurrences) <==> !RunClashes(state, commands)
    decreases |commands|
  {
    if commands != [] {
      hide Apply, UniqueIds, RefreshClashes;
      var next := Apply(state, commands[0]).state;
      CommandKeepsIdsExactly(state, commands[0]);
      if UniqueIds(next.occurrences) {
        RunKeepsIdsExactly(next, commands[1..]);
      } else {
        RepeatedForever(next, commands[1..]);
      }
    }
  }

  lemma {:induction false} RunKeepsInvariant(state: State, history: History, commands: seq<Command>)
    requires Invariant(state, history) && LegalRun(state, commands)
    ensures exists final :: Invariant(Run(state, commands), final)
    decreases |commands|
  {
    if commands == [] {
      assert Invariant(Run(state, commands), history);
    } else {
      hide Apply, Remember, Invariant, Legal;
      InvariantKept(state, history, commands[0]);
      var next, rest := Apply(state, commands[0]).state, commands[1..];
      RunKeepsInvariant(next, Remember(state, history, commands[0]), rest);
      var final :| Invariant(Run(next, rest), final);
      assert Run(state, commands) == Run(next, rest);
      assert Invariant(Run(state, commands), final);
    }
  }

  lemma {:induction false} RunKeepsEnteredOnce(state: State, commands: seq<Command>)
    requires EnteredOnce(state) && FreshRun(state, commands)
    ensures EnteredOnce(Run(state, commands))
    decreases |commands|
  {
    if commands != [] {
      hide Apply, EnteredOnce, Fresh;
      EnteredOnceKept(state, commands[0]);
      RunKeepsEnteredOnce(Apply(state, commands[0]).state, commands[1..]);
    }
  }

  /**
   After every run from an empty ledger, with any creations and edits and failed commands included,
   entered occurrences and transactions correspond one to one with equal date and amount.
   */
  lemma {:induction false} EveryRunEntersOnce(commands: seq<Command>)
    requires FreshRun(INITIAL, commands)
    ensures EnteredOnce(Run(INITIAL, commands))
  {
    RunKeepsEnteredOnce(INITIAL, commands);
  }

  /** In every legal run ids are unique, no refresh has clashed, and no next command reports a duplicate identity. */
  lemma {:induction false} LegalRunNeverClashes(commands: seq<Command>, next: Command)
    requires LegalRun(INITIAL, commands)
    ensures UniqueIds(Run(INITIAL, commands).occurrences) && !RunClashes(INITIAL, commands)
    ensures Apply(Run(INITIAL, commands), next).error != Some(DuplicateOccurrenceIdentity)
  {
    assert Invariant(INITIAL, map[]);
    RunKeepsInvariant(INITIAL, map[], commands);
    var final :| Invariant(Run(INITIAL, commands), final);
    TracedIdsAreUnique(Run(INITIAL, commands), final);
    RunKeepsIdsExactly(INITIAL, commands);
    NoDuplicateReported(Run(INITIAL, commands), final, next);
  }

  /** An occurrence once entered, skipped or dismissed is the same after any further commands. */
  lemma {:induction false} SettledForever(state: State, commands: seq<Command>, key: Key)
    requires key in state.occurrences && state.occurrences[key].disposition != Pending
    ensures var final := Run(state, commands).occurrences;
            key in final && final[key] == state.occurrences[key]
    decreases |commands|
  {
    if commands != [] {
      SettledEntriesStay(state, commands[0], key);
      SettledForever(Apply(state, commands[0]).state, commands[1..], key);
    }
  }

  // ----- An edit that cannot raise the version ------------------------------------------------

  const EVE: Date := CalendarDate(2026, 1, 1)
  const DAY: Date := CalendarDate(2026, 1, 2)
  const NEXT: Date := CalendarDate(2026, 1, 3)

  /** A daily schedule at the last version that runs out on the day. */
  function LastVersion(start: Date): Schedule {
    Schedule(1, MAX_U32, 1, start, 10, None, None, Daily, Some(DAY), true)
  }

  const SCHEDULED := OccurrenceId(Scheduled(1, DAY, MAX_U32))

  lemma SameMonth()
    ensures Ordinal(DAY) == Ordinal(EVE) + 1 && Ordinal(NEXT) == Ordinal(DAY) + 1
  {
  }

  lemma LastVersionDates()
    ensures OccurrenceDate(LastVersion(DAY), 0) == Ok(Some(DAY)) && OccurrenceDate(LastVersion(DAY), 1) == Ok(None)
    ensures OccurrenceDate(LastVersion(EVE), 0) == Ok(Some(EVE)) && OccurrenceDate(LastVersion(EVE), 1) == Ok(Some(DAY))
    ensures OccurrenceDate(LastVersion(EVE), 2) == Ok(None)
    ensures AddDays(DAY, 0) == Some(DAY)
  {
    hide AddDays, Ordinal;
    assert Ordinal(DAY) == Ordinal(EVE) + 1 && Ordinal(NEXT) == Ordinal(DAY) + 1 by {
      SameMonth();
    }
    AddDaysExact(DAY, 0, DAY);
    AddDaysExact(DAY, 1, NEXT);
    AddDaysExact(EVE, 0, EVE);
    AddDaysExact(EVE, 1, DAY);
    AddDaysExact(EVE, 2, NEXT);
  }

  /** One refresh on the day: the entry of the day if there is none for its sequence number. */
  lemma RefreshOnTheDay(values: Entries)
    requires values == map[]
    ensures Refresh(LastVersion(DAY), DAY, 0, values)
         == Refreshed(values[(1, 0) := Generated(LastVersion(DAY), 0, DAY)], Ok([SCHEDULED]))
  {
    LastVersionDates();
    hide OccurrenceDate, Ordinal, AddDays;
    var s, after := LastVersion(DAY), values[(1, 0) := Generated(LastVersion(DAY), 0, DAY)];
    assert RefreshFrom(s, DAY, DAY, 1, after) == Refreshed(after, Ok([]));
    PrependParts(Refreshed(after, Ok([])), [SCHEDULED], []);
    assert [SCHEDULED] + [] == [SCHEDULED];
  }

  lemma RefreshFromTheEve(values: Entries)
    requires (1, 1) !in values && !HasIdentity(values, LastVersion(EVE), Scheduled(1, DAY, MAX_U32))
    ensures Refresh(LastVersion(EVE), DAY, 0, values)
         == Refreshed(values[(1, 1) := Generated(LastVersion(EVE), 1, DAY)], Ok([SCHEDULED]))
  {
    LastVersionDates();
    hide OccurrenceDate, Ordinal, AddDays, HasIdentity;
    var s, after := LastVersion(EVE), values[(1, 1) := Generated(LastVersion(EVE), 1, DAY)];
    assert RefreshFrom(s, DAY, DAY, 2, after) == Refreshed(after, Ok([]));
    assert [SCHEDULED] + [] == [SCHEDULED];
    assert RefreshFrom(s, DAY, DAY, 1, values) == Refreshed(after, Ok([SCHEDULED]));
    assert Before(EVE, DAY);
  }

  /** The only entry, with the day's id, once it has been modified. */
  function ModifiedEntry(): Occurrence {
    Generated(LastVersion(DAY), 0, DAY).(identity := Modified(1, DAY, DAY, 0), amount := 20)
  }

  function Values(entry: Occurrence): Entries {
    map[(1, 0) := entry]
  }

  lemma ModifyOnly()
    ensures Modify(Values(Generated(LastVersion(DAY), 0, DAY)), SCHEDULED, DAY, 20) == Ok(Values(ModifiedEntry()))
  {
    var entry := Generated(LastVersion(DAY), 0, DAY);
    var values := Values(entry);
    assert (1, 0) in Candidates(values, SCHEDULED, true);
    assert Find(values, SCHEDULED, true) == Some((1, 0));
    assert values[(1, 0) := ModifiedEntry()] == Values(ModifiedEntry());
  }

  lemma UnfoldRun(s: State, first: Command, rest: seq<Command>)
    ensures Run(s, [first] + rest) == Run(Apply(s, first).state, rest)
    ensures LegalRun(s, [first] + rest) <==> Legal(s, first) && LegalRun(Apply(s, first).state, rest)
  {
    hide Apply, Legal;
    assert ([first] + rest)[1..] == rest;
  }

  const FIRST := State(map[1 := LastVersion(DAY)], map[], map[])
  const ENTERED := FIRST.(occurrences := Values(Generated(LastVersion(DAY), 0, DAY)))
  const MODIFIED := FIRST.(occurrences := Values(ModifiedEntry()))
  const EDITED := MODIFIED.(schedules := map[1 := LastVersion(EVE)])

  lemma RefreshStep(s: State, id: ScheduleId, today: Date, days: U32, values: Entries, ids: seq<OccurrenceId>)
    requires id in s.schedules && Refresh(s.schedules[id], today, days, s.occurrences) == Refreshed(values, Ok(ids))
    ensures Apply(s, RefreshSeries(id, today, days)).state == s.(occurrences := values)
  {
    hide Refresh, Enter, OccurrenceDate, Modify, Occurrences.Dispose;
  }

  lemma EditStep(s: State, schedule: Schedule)
    requires schedule.id in s.schedules && OccurrenceDate(schedule, 0).Ok? && schedule.version == MAX_U32
    ensures Apply(s, Edit(schedule)).state == s.(schedules := s.schedules[schedule.id := schedule])
  {
    hide Refresh, Enter, OccurrenceDate, Modify, Occurrences.Dispose;
  }

  lemma CreateFirst()
    ensures Apply(INITIAL, Create(LastVersion(DAY))).state == FIRST && Legal(INITIAL, Create(LastVersion(DAY)))
  {
    LastVersionDates();
    hide OccurrenceDate;
  }

  lemma RefreshFirst()
    ensures Apply(FIRST, RefreshSeries(1, DAY, 0)).state == ENTERED
  {
    RefreshOnTheDay(map[]);
    hide Refresh, Apply, LastVersion, Generated;
    var values: Entries := map[];
    assert values[(1, 0) := Generated(LastVersion(DAY), 0, DAY)] == Values(Generated(LastVersion(DAY), 0, DAY));
    RefreshStep(FIRST, 1, DAY, 0, Values(Generated(LastVersion(DAY), 0, DAY)), [SCHEDULED]);
  }

  lemma ModifyEntered()
    ensures Apply(ENTERED, ModifyBeforeEntry(SCHEDULED, DAY, 20)).state == MODIFIED
  {
    ModifyOnly();
    hide Modify, Values;
  }

  lemma EveStarts()
    ensures LastVersion(EVE).id == 1 && LastVersion(EVE).version == MAX_U32 && OccurrenceDate(LastVersion(EVE), 0).Ok?
  {
    LastVersionDates();
    hide OccurrenceDate;
  }

  lemma ReplaceOnly(a: Schedule, b: Schedule)
    ensures (map[1 := a])[1 := b] == map[1 := b]
  {
  }

  lemma EditModified()
    ensures Apply(MODIFIED, Edit(LastVersion(EVE))).state == EDITED
  {
    EveStarts();
    hide Apply, Values, ModifiedEntry, LastVersion, OccurrenceDate;
    ReplaceOnly(LastVersion(DAY), LastVersion(EVE));
    EditStep(MODIFIED, LastVersion(EVE));
  }

  function Repeated(): Entries {
    Values(ModifiedEntry())[(1, 1) := Generated(LastVersion(EVE), 1, DAY)]
  }

  lemma RefreshEdited()
    ensures Apply(EDITED, RefreshSeries(1, DAY, 0)).state == EDITED.(occurrences := Repeated())
  {
    RefreshFromTheEve(EDITED.occurrences);
    hide Refresh, Apply, LastVersion, Generated, Values, ModifiedEntry;
    RefreshStep(EDITED, 1, DAY, 0, Repeated(), [SCHEDULED]);
  }

  lemma {:induction false} UntilModified()
    ensures var commands := [Create(LastVersion(DAY)), RefreshSeries(1, DAY, 0), ModifyBeforeEntry(SCHEDULED, DAY, 20)];
            LegalRun(INITIAL, commands) && Run(INITIAL, commands) == MODIFIED
  {
    CreateFirst();
    RefreshFirst();
    ModifyEntered();
    hide Apply, LastVersion, Values, ModifiedEntry;
    UnfoldRun(INITIAL, Create(LastVersion(DAY)), [RefreshSeries(1, DAY, 0), ModifyBeforeEntry(SCHEDULED, DAY, 20)]);
    UnfoldRun(FIRST, RefreshSeries(1, DAY, 0), [ModifyBeforeEntry(SCHEDULED, DAY, 20)]);
    UnfoldRun(ENTERED, ModifyBeforeEntry(SCHEDULED, DAY, 20), []);
  }

  lemma {:induction false} EditedAndRefreshed()
    ensures Run(MODIFIED, [Edit(LastVersion(EVE)), RefreshSeries(1, DAY, 0)]) == EDITED.(occurrences := Repeated())
  {
    EditModified();
    RefreshEdited();
    hide Apply, LastVersion, Values, ModifiedEntry, Repeated;
    UnfoldRun(MODIFIED, Edit(LastVersion(EVE)), [RefreshSeries(1, DAY, 0)]);
    UnfoldRun(EDITED, RefreshSeries(1, DAY, 0), []);
  }

  /**
   At the last version an edit of the series keeps the version: after an occurrence was modified and
   the start date moved back a day, the refresh gives a second entry the id of the first.
   */
  lemma {:induction false} SaturatedVersionRepeatsIds()
    ensures var commands := [Create(LastVersion(DAY)), RefreshSeries(1, DAY, 0), ModifyBeforeEntry(SCHEDULED, DAY, 20)];
            && LegalRun(INITIAL, commands)
            && Run(INITIAL, commands).schedules == map[1 := LastVersion(DAY)]
            && LastVersion(EVE).version == LastVersion(DAY).version
            && !UniqueIds(Run(Run(INITIAL, commands), [Edit(LastVersion(EVE)), RefreshSeries(1, DAY, 0)]).occurrences)
  {
    UntilModified();
    EditedAndRefreshed();
    hide Run, LegalRun;
    assert Repeated()[(1, 0)].id == Repeated()[(1, 1)].id;
  }

  // ----- The service --------------------------------------------------------------------------

  /**
   The invariant carries over to `after`, with the history that a legal command leaves, and so does
   entering once under a fresh identifier; unique ids do unless a refresh clashes.
   */
  ghost predicate Kept(before: State, command: Command, after: State) {
    && (forall history :: Invariant(before, history) && Legal(before, command) ==>
          Invariant(after, Remember(before, history, command)))
    && (EnteredOnce(before) && Fresh(before, command) ==> EnteredOnce(after))
    && (UniqueIds(before.occurrences) ==> (UniqueIds(after.occurrences) <==> !RefreshClashes(before, command)))
  }

  lemma {:induction false} InvariantKeptBy(before: State, command: Command)
    ensures Kept(before, command, Apply(before, command).state)
  {
    hide Invariant, Apply, Legal, Remember, EnteredOnce, Fresh, UniqueIds, RefreshClashes;
    if EnteredOnce(before) && Fresh(before, command) {
      EnteredOnceKept(before, command);
    }
    if UniqueIds(before.occurrences) {
      CommandKeepsIdsExactly(before, command);
    }
    forall history | Invariant(before, history) && Legal(before, command)
      ensures Invariant(Apply(before, command).state, Remember(before, history, command))
    {
      InvariantKept(before, history, command);
    }
  }

  class ScheduleService {
    var schedules: map<ScheduleId, Schedule>
    const store: OccurrenceStore
    var transactions: map<TransactionId, Transaction>

    ghost function Contents(): State
      reads this, store
    {
      State(schedules, store.values, transactions)
    }

    constructor ()
      ensures Contents() == INITIAL && fresh(store)
    {
      schedules, transactions := map[], map[];
      store := new OccurrenceStore();
    }

    method CreateSchedule(schedule: Schedule) returns (r: Result<ScheduleId, ScheduleError>)
      modifies this`schedules
      ensures Outcome(Contents(), if r.Ok? then None else Some(r.error)) == Apply(old(Contents()), Create(schedule))
      ensures r.Ok? ==> r.value == schedule.id
      ensures Kept(old(Contents()), Create(schedule), Contents())
    {
      hide Kept;
      InvariantKeptBy(Contents(), Create(schedule));
      var _ :- OccurrenceDate(schedule, 0);
      schedules := schedules[schedule.id := schedule];
      return Ok(schedule.id);
    }

    method EditSchedule(schedule: Schedule) returns (r: Result<(), ScheduleError>)
      modifies this`schedules
      ensures Outcome(Contents(), if r.Ok? then None else Some(r.error)) == Apply(old(Contents()), Edit(schedule))
      ensures Kept(old(Contents()), Edit(schedule), Contents())
    {
      hide Kept;
      InvariantKeptBy(Contents(), Edit(schedule));
      if schedule.id !in schedules {
        return Err(ScheduleNotFound);
      }
      var _ :- OccurrenceDate(schedule, 0);
      schedules := schedules[schedule.id := schedule.(version := SaturatingIncrement(schedule.version))];
      return Ok(());
    }

    method Activation(id: ScheduleId, active: bool) returns (r: Result<(), ScheduleError>)
      modifies this`schedules
      ensures Outcome(Contents(), if r.Ok? then None else Some(r.error)) == Apply(old(Contents()), SetActive(id, active))
      ensures Kept(old(Contents()), SetActive(id, active), Contents())
    {
      hide Kept;
      InvariantKeptBy(Contents(), SetActive(id, active));
      if id !in schedules {
        return Err(ScheduleNotFound);
      }
      schedules := schedules[id := schedules[id].(active := active)];
      return Ok(());
    }

    method RefreshOccurrences(id: ScheduleId, today: Date, lookAheadDays: U32)
      returns (r: Result<seq<Projection>, ScheduleError>)
      modifies store
      ensures Outcome(Contents(), if r.Ok? then None else Some(r.error))
           == Apply(old(Contents()), RefreshSeries(id, today, lookAheadDays))
      ensures r.Ok? ==>
                && id in schedules
                && var refreshed := Refresh(schedules[id], today, lookAheadDays, old(store.values));
                   refreshed.outcome.Ok? && r.value == Projections(store.values, refreshed.outcome.value)
      ensures Kept(old(Contents()), RefreshSeries(id, today, lookAheadDays), Contents())
    {
      hide Kept;
      InvariantKeptBy(Contents(), RefreshSeries(id, today, lookAheadDays));
      hide Refresh, Occurrences.Dispose, Modify, OccurrenceDate;
      if id !in schedules {
        return Err(ScheduleNotFound);
      }
      var ids :- store.RefreshSchedule(schedules[id], today, lookAheadDays);
      var shown := [];
      for i := 0 to |ids|
        invariant Refreshed(store.values, Ok(ids)) == Refresh(schedules[id], today, lookAheadDays, old(store.values))
        invariant shown == Projections(store.values, ids[..i])
      {
        assert ids[..i + 1][..i] == ids[..i];
        var key := store.FindKey(ids[i], false);
        if key.Some? {
          shown := shown + [Project(store.values[key.value])];
        }
      }
      assert ids[..|ids|] == ids;
      return Ok(shown);
    }

    /** Stages the linked writes on a copy; replacing both maps is the commit point. */
    method EnterOccurrence(id: OccurrenceId, budgetId: BudgetId, transactionId: TransactionId)
      returns (r: Result<Transaction, ScheduleError>)
      modifies this`transactions, store
      ensures Outcome(Contents(), if r.Ok? then None else Some(r.error))
           == Apply(old(Contents()), EnterNow(id, budgetId, transactionId))
      ensures r.Ok? ==> transactionId in transactions && r.value == transactions[transactionId]
      ensures Kept(old(Contents()), EnterNow(id, budgetId, transactionId), Contents())
    {
      hide Kept;
      InvariantKeptBy(Contents(), EnterNow(id, budgetId, transactionId));
      hide OccurrenceDate, Refresh;
      var key := store.FindKey(id, false);
      if key.None? || store.values[key.value].disposition != Pending {
        return Err(OccurrenceUnavailable);
      }
      var o := store.values[key.value];
      if o.scheduleId !in schedules {
        return Err(ScheduleNotFound);
      }
      var t := EnteredTransaction(o, schedules[o.scheduleId], budgetId, transactionId);
      var staged := new OccurrenceStore();
      staged.values := store.values;
      var _ :- staged.SetDisposition(id, Entered(transactionId));
      store.values := staged.values;
      transactions := transactions[transactionId := t];
      return Ok(t);
    }

    method SkipOrDismiss(id: OccurrenceId, dismiss: bool) returns (r: Result<(), ScheduleError>)
      modifies store
      ensures Outcome(Contents(), if r.Ok? then None else Some(r.error)) == Apply(old(Contents()), Dispose(id, dismiss))
      ensures Kept(old(Contents()), Dispose(id, dismiss), Contents())
    {
      hide Kept;
      InvariantKeptBy(Contents(), Dispose(id, dismiss));
      r := store.SetDisposition(id, if dismiss then Dismissed else Skipped);
    }

    method ModifyOccurrence(id: OccurrenceId, date: Date, amount: Money) returns (r: Result<Projection, ScheduleError>)
      modifies store
      ensures Outcome(Contents(), if r.Ok? then None else Some(r.error))
           == Apply(old(Contents()), ModifyBeforeEntry(id, date, amount))
      ensures r.Ok? ==>
                && var key := Find(store.values, id, false);
                   key.Some? && r.value == Project(store.values[key.value])
      ensures Kept(old(Contents()), ModifyBeforeEntry(id, date, amount), Contents())
    {
      hide Kept;
      InvariantKeptBy(Contents(), ModifyBeforeEntry(id, date, amount));
      hide Refresh, Occurrences.Dispose, Modify, OccurrenceDate;
      if Modify(store.values, id, date, amount).Ok? {
        ModifiedIsFound(store.values, id, date, amount);
      }
      var _ :- store.ModifyOccurrence(id, date, amount);
      var key := store.FindKey(id, false);
      if key.None? {
        return Err(OccurrenceUnavailable);
      }
      return Ok(Project(store.values[key.value]));
    }
  }
}
