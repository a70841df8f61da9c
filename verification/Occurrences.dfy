/** Pending occurrences of schedules and their dispositions (`src/domain/schedule.rs`, lines 193-316). */
module Occurrences {
  import opened Wrappers
  import opened Cents
  import opened Calendar
  import opened Entities
  import opened Recurrences

  datatype Disposition = Pending | Skipped | Dismissed | Entered(transactionId: TransactionId)

  /** The identity texts of the program are injective in these parts. */
  datatype OccurrenceIdentity =
    | Scheduled(scheduleId: ScheduleId, date: Date, version: U32)
    | Modified(scheduleId: ScheduleId, original: Date, date: Date, version: U32)

  /** The id is a hash of the identity at creation, taken to be injective. */
  datatype OccurrenceId = OccurrenceId(identity: OccurrenceIdentity)

  datatype Occurrence = Occurrence(
    id: OccurrenceId,
    identity: OccurrenceIdentity,
    scheduleId: ScheduleId,
    sequence: U32,
    date: Date,
    amount: Money,
    payeeId: Option<PayeeId>,
    categoryId: Option<CategoryId>,
    disposition: Disposition)

  type Key = (ScheduleId, U32)
  type Entries = map<Key, Occurrence>

  function Generated(schedule: Schedule, sequence: U32, date: Date): Occurrence {
    var identity := Scheduled(schedule.id, date, schedule.version);
    Occurrence(OccurrenceId(identity), identity, schedule.id, sequence, date,
               schedule.amount, schedule.payeeId, schedule.categoryId, Pending)
  }

  // ----- Refresh ------------------------------------------------------------------------------

  datatype Refreshed = Refreshed(values: Entries, outcome: Result<seq<OccurrenceId>, ScheduleError>) {
    function Prepend(created: seq<OccurrenceId>): Refreshed {
      match outcome
      case Ok(more) => Refreshed(values, Ok(created + more))
      case Err(_) => this
    }
  }

  lemma PrependParts(r: Refreshed, first: seq<OccurrenceId>, second: seq<OccurrenceId>)
    ensures r.Prepend([]) == r
    ensures r.Prepend(second).Prepend(first) == r.Prepend(first + second)
  {
    if r.outcome.Ok? {
      assert [] + r.outcome.value == r.outcome.value;
      assert first + (second + r.outcome.value) == first + second + r.outcome.value;
    }
  }

  predicate HasIdentity(values: Entries, schedule: Schedule, identity: OccurrenceIdentity) {
    exists key :: key in values && values[key].identity == identity && values[key].scheduleId == schedule.id
  }

  /** A date within the window bounds its sequence number by the length of the calendar. */
  lemma ScanAdvances(schedule: Schedule, through: Date, sequence: U32)
    requires OccurrenceDate(schedule, sequence).Ok? && OccurrenceDate(schedule, sequence).value.Some?
    requires !Before(through, OccurrenceDate(schedule, sequence).value.value)
    ensures Ordinal(schedule.startDate) + sequence <= Ordinal(through)
    ensures sequence < MAX_U32
  {
    RawDateFromStart(schedule, sequence);
    OrderIsOrdinal(through, RawDate(schedule, sequence).value);
    OrdinalBounds(schedule.startDate);
    OrdinalBounds(through);
  }

  /** The scan of a series from one sequence number on; it stops at the first date past `through`. */
  function RefreshFrom(schedule: Schedule, today: Date, through: Date, sequence: U32, values: Entries): Refreshed
    decreases Ordinal(through) + 1 - Ordinal(schedule.startDate) - sequence
  {
    match OccurrenceDate(schedule, sequence)
    case Err(e) => Refreshed(values, Err(e))
    case Ok(None) => Refreshed(values, Ok([]))
    case Ok(Some(date)) =>
      if Before(through, date) then Refreshed(values, Ok([]))
      else
        ScanAdvances(schedule, through, sequence);
        var key := (schedule.id, sequence);
        var occurrence := Generated(schedule, sequence, date);
        if Before(date, today) then RefreshFrom(schedule, today, through, sequence + 1, values)
        else if key !in values && HasIdentity(values, schedule, occurrence.identity) then
          Refreshed(values, Err(DuplicateOccurrenceIdentity))
        else if key !in values then
          RefreshFrom(schedule, today, through, sequence + 1, values[key := occurrence]).Prepend([occurrence.id])
        else RefreshFrom(schedule, today, through, sequence + 1, values)
  }

  function Refresh(schedule: Schedule, today: Date, lookAheadDays: U32, values: Entries): Refreshed {
    if !schedule.active then Refreshed(values, Ok([]))
    else
      match AddDays(today, lookAheadDays)
      case None => Refreshed(values, Err(InvalidLookAhead))
      case Some(through) => RefreshFrom(schedule, today, through, 0, values)
  }

  /** Sequence `q` is dated inside the window `[today, through]`. */
  predicate InWindow(schedule: Schedule, today: Date, through: Date, q: U32) {
    var r := OccurrenceDate(schedule, q);
    r.Ok? && r.value.Some? && NotAfter(today, r.value.value) && NotAfter(r.value.value, through)
  }

  /** Adding one generated entry first and others after it only adds generated entries. */
  lemma OneMoreAdded(schedule: Schedule, today: Date, through: Date, sequence: U32, values: Entries, after: Entries)
    requires (schedule.id, sequence) !in values && InWindow(schedule, today, through, sequence)
    requires var next := values[(schedule.id, sequence) :=
                                Generated(schedule, sequence, OccurrenceDate(schedule, sequence).value.value)];
             && (forall key :: key in next ==> key in after && after[key] == next[key])
             && (forall key :: key in after && key !in next ==>
                   && key.0 == schedule.id && sequence < key.1
                   && InWindow(schedule, today, through, key.1)
                   && after[key] == Generated(schedule, key.1, OccurrenceDate(schedule, key.1).value.value))
    ensures forall key :: key in values ==> key in after && after[key] == values[key]
    ensures forall key :: key in after && key !in values ==>
              && key.0 == schedule.id && sequence <= key.1
              && InWindow(schedule, today, through, key.1)
              && after[key] == Generated(schedule, key.1, OccurrenceDate(schedule, key.1).value.value)
  {
    hide OccurrenceDate, Generated;
  }

  /** Existing entries are never altered, and every new one is a generated entry of the window. */
  lemma {:induction false} RefreshOnlyAdds(schedule: Schedule, today: Date, through: Date, sequence: U32, values: Entries)
    ensures var after := RefreshFrom(schedule, today, through, sequence, values).values;
            && (forall key :: key in values ==> key in after && after[key] == values[key])
            && (forall key :: key in after && key !in values ==>
                  && key.0 == schedule.id && sequence <= key.1
                  && InWindow(schedule, today, through, key.1)
                  && after[key] == Generated(schedule, key.1, OccurrenceDate(schedule, key.1).value.value))
    decreases Ordinal(through) + 1 - Ordinal(schedule.startDate) - sequence
  {
    hide OccurrenceDate, Ordinal, HasIdentity, Generated;
    var r := OccurrenceDate(schedule, sequence);
    if r.Ok? && r.value.Some? && !Before(through, r.value.value) {
      ScanAdvances(schedule, through, sequence);
      var date := r.value.value;
      var key := (schedule.id, sequence);
      if !Before(date, today) && key !in values {
        var occurrence := Generated(schedule, sequence, date);
        if !HasIdentity(values, schedule, occurrence.identity) {
          var next := values[key := occurrence];
          RefreshOnlyAdds(schedule, today, through, sequence + 1, next);
          OneMoreAdded(schedule, today, through, sequence, values,
                       RefreshFrom(schedule, today, through, sequence + 1, next).values);
        }
      } else {
        RefreshOnlyAdds(schedule, today, through, sequence + 1, values);
      }
    }
  }

  lemma OneMoreCreated(values: Entries, key: Key, occurrence: Occurrence, after: Entries, created: seq<OccurrenceId>)
    requires key !in values && key in after && after[key] == occurrence
    requires forall id :: id in created <==> exists k :: k in after && k !in values[key := occurrence] && after[k].id == id
    ensures forall id :: id in [occurrence.id] + created <==> exists k :: k in after && k !in values && after[k].id == id
  {
    forall id
      ensures id in [occurrence.id] + created <==> exists k :: k in after && k !in values && after[k].id == id
    {
      if id in created {
        var k :| k in after && k !in values[key := occurrence] && after[k].id == id;
        assert k !in values;
      }
      if exists k :: k in after && k !in values && after[k].id == id {
        var k :| k in after && k !in values && after[k].id == id;
        if k != key {
          assert k !in values[key := occurrence];
        }
      }
    }
  }

  /** The ids that a refresh reports as created are those of the new entries. */
  lemma {:induction false} CreatedIdsAreNew(schedule: Schedule, today: Date, through: Date, sequence: U32, values: Entries)
    requires RefreshFrom(schedule, today, through, sequence, values).outcome.Ok?
    ensures var r := RefreshFrom(schedule, today, through, sequence, values);
            forall id :: id in r.outcome.value <==> exists key :: key in r.values && key !in values && r.values[key].id == id
    decreases Ordinal(through) + 1 - Ordinal(schedule.startDate) - sequence
  {
    hide OccurrenceDate, Ordinal, HasIdentity, Generated;
    var r := OccurrenceDate(schedule, sequence);
    if r.Ok? && r.value.Some? && !Before(through, r.value.value) {
      ScanAdvances(schedule, through, sequence);
      var date, key := r.value.value, (schedule.id, sequence);
      if !Before(date, today) && key !in values {
        var occurrence := Generated(schedule, sequence, date);
        var next := values[key := occurrence];
        CreatedIdsAreNew(schedule, today, through, sequence + 1, next);
        RefreshOnlyAdds(schedule, today, through, sequence + 1, next);
        var rest := RefreshFrom(schedule, today, through, sequence + 1, next);
        OneMoreCreated(values, key, occurrence, rest.values, rest.outcome.value);
      } else {
        CreatedIdsAreNew(schedule, today, through, sequence + 1, values);
      }
    }
  }

  /** A refresh that succeeds leaves an entry for every sequence dated in the window. */
  lemma {:induction false} RefreshCoversWindow(schedule: Schedule, today: Date, through: Date, sequence: U32,
                                               values: Entries, q: U32)
    requires RefreshFrom(schedule, today, through, sequence, values).outcome.Ok?
    requires sequence <= q && InWindow(schedule, today, through, q)
    ensures (schedule.id, q) in RefreshFrom(schedule, today, through, sequence, values).values
    decreases Ordinal(through) + 1 - Ordinal(schedule.startDate) - sequence
  {
    hide OccurrenceDate, Ordinal;
    var r := OccurrenceDate(schedule, sequence);
    if r.value.None? || Before(through, r.value.value) {
      SeriesHasPassed(schedule, sequence, q, through);
    } else {
      ScanAdvances(schedule, through, sequence);
      var date := r.value.value;
      var key := (schedule.id, sequence);
      var grown := if Before(date, today) || key in values then values
                   else values[key := Generated(schedule, sequence, date)];
      if q == sequence {
        RefreshOnlyAdds(schedule, today, through, sequence + 1, grown);
      } else {
        RefreshCoversWindow(schedule, today, through, sequence + 1, grown, q);
      }
    }
  }

  // ----- Where a refresh stops, and when it repeats an id ---------------------------------------

  predicate Missing(schedule: Schedule, today: Date, through: Date, values: Entries, q: U32) {
    InWindow(schedule, today, through, q) && (schedule.id, q) !in values
  }

  /** Sequence `q` has no entry, but the identity it would get is that of another entry. */
  predicate Blocked(schedule: Schedule, today: Date, through: Date, values: Entries, q: U32) {
    Missing(schedule, today, through, values, q)
    && HasIdentity(values, schedule, Generated(schedule, q, OccurrenceDate(schedule, q).value.value).identity)
  }

  /** Sequence `q` has no entry, but the id it would get is that of the entry `key`. */
  predicate Repeats(schedule: Schedule, today: Date, through: Date, values: Entries, q: U32, key: Key) {
    Missing(schedule, today, through, values, q)
    && key in values && values[key].id == Generated(schedule, q, OccurrenceDate(schedule, q).value.value).id
  }

  /** Such a sequence that comes before everything that would stop the scan. */
  ghost predicate Clashes(schedule: Schedule, today: Date, through: Date, values: Entries) {
    exists q: U32, key: Key ::
      Repeats(schedule, today, through, values, q, key)
      && forall p: U32 :: p <= q ==> !Blocked(schedule, today, through, values, p)
  }

  ghost predicate UniqueIds(values: Entries) {
    forall a, b :: a in values && b in values && values[a].id == values[b].id ==> a == b
  }

  /** A generated entry has the identity of no other sequence, so it blocks none. */
  lemma BlockedStays(schedule: Schedule, today: Date, through: Date, sequence: U32, values: Entries, q: U32)
    requires sequence < q && (schedule.id, sequence) !in values
    requires OccurrenceDate(schedule, sequence).Ok? && OccurrenceDate(schedule, sequence).value.Some?
    ensures var entry := Generated(schedule, sequence, OccurrenceDate(schedule, sequence).value.value);
            Blocked(schedule, today, through, values[(schedule.id, sequence) := entry], q)
            <==> Blocked(schedule, today, through, values, q)
  {
    hide OccurrenceDate;
    var key := (schedule.id, sequence);
    var entry := Generated(schedule, sequence, OccurrenceDate(schedule, sequence).value.value);
    var grown := values[key := entry];
    if InWindow(schedule, today, through, q) {
      OccurrenceDatesIncrease(schedule, sequence, q);
      var identity := Generated(schedule, q, OccurrenceDate(schedule, q).value.value).identity;
      if HasIdentity(values, schedule, identity) {
        var k :| k in values && values[k].identity == identity && values[k].scheduleId == schedule.id;
        assert k in grown && grown[k] == values[k];
      }
      if HasIdentity(grown, schedule, identity) {
        var k :| k in grown && grown[k].identity == identity && grown[k].scheduleId == schedule.id;
        assert k in values && grown[k] == values[k];
      }
    }
  }

  /** Where the scan stands, being blocked is its own test for a duplicate identity. */
  lemma BlockedAt(schedule: Schedule, today: Date, through: Date, values: Entries, q: U32)
    requires var r := OccurrenceDate(schedule, q); r.Ok? && r.value.Some? && !Before(through, r.value.value)
    ensures var date := OccurrenceDate(schedule, q).value.value;
            Blocked(schedule, today, through, values, q)
            <==> && !Before(date, today) && (schedule.id, q) !in values
                 && HasIdentity(values, schedule, Generated(schedule, q, date).identity)
  {
    hide OccurrenceDate, HasIdentity;
  }

  lemma NothingBlockedPast(schedule: Schedule, today: Date, through: Date, values: Entries, sequence: U32, q: U32)
    requires sequence <= q
    requires var r := OccurrenceDate(schedule, sequence); r.Err? || r.value.None? || Before(through, r.value.value)
    ensures !Missing(schedule, today, through, values, q) && !Blocked(schedule, today, through, values, q)
  {
    hide OccurrenceDate;
    if InWindow(schedule, today, through, q) {
      EarlierDateExists(schedule, sequence, q);
      SeriesHasPassed(schedule, sequence, q, through);
    }
  }

  /** A refresh reports a duplicate identity if and only if some sequence of the window is blocked. */
  lemma {:induction false} DuplicateExactly(schedule: Schedule, today: Date, through: Date, sequence: U32, values: Entries)
    ensures RefreshFrom(schedule, today, through, sequence, values).outcome == Err(DuplicateOccurrenceIdentity)
            <==> exists q: U32 :: sequence <= q && Blocked(schedule, today, through, values, q)
    decreases Ordinal(through) + 1 - Ordinal(schedule.startDate) - sequence
  {
    hide Ordinal, OccurrenceDate, Generated, Missing, Blocked, HasIdentity;
    var r := OccurrenceDate(schedule, sequence);
    NoOtherError(schedule, sequence);
    if r.Err? || r.value.None? || Before(through, r.value.value) {
      forall q: U32 | sequence <= q
        ensures !Blocked(schedule, today, through, values, q)
      {
        NothingBlockedPast(schedule, today, through, values, sequence, q);
      }
    } else {
      ScanAdvances(schedule, through, sequence);
      BlockedAt(schedule, today, through, values, sequence);
      var date, key := r.value.value, (schedule.id, sequence);
      if Before(date, today) || key in values {
        DuplicateExactly(schedule, today, through, sequence + 1, values);
      } else if !HasIdentity(values, schedule, Generated(schedule, sequence, date).identity) {
        var grown := values[key := Generated(schedule, sequence, date)];
        DuplicateExactly(schedule, today, through, sequence + 1, grown);
        forall q: U32 | sequence < q
          ensures Blocked(schedule, today, through, grown, q) <==> Blocked(schedule, today, through, values, q)
        {
          BlockedStays(schedule, today, through, sequence, values, q);
        }
      }
    }
  }

  /** A missing sequence gets its entry if and only if nothing up to it is blocked, even if the refresh fails later. */
  lemma {:induction false} ReachedExactly(schedule: Schedule, today: Date, through: Date, sequence: U32,
                                          values: Entries, q: U32)
    requires sequence <= q && Missing(schedule, today, through, values, q)
    ensures (schedule.id, q) in RefreshFrom(schedule, today, through, sequence, values).values
            <==> forall p: U32 :: sequence <= p <= q ==> !Blocked(schedule, today, through, values, p)
    decreases Ordinal(through) + 1 - Ordinal(schedule.startDate) - sequence
  {
    hide Ordinal, OccurrenceDate, Generated, Blocked, HasIdentity;
    var r := OccurrenceDate(schedule, sequence);
    if r.Err? || r.value.None? || Before(through, r.value.value) {
      NothingBlockedPast(schedule, today, through, values, sequence, q);
      assert false;
    } else {
      ScanAdvances(schedule, through, sequence);
      BlockedAt(schedule, today, through, values, sequence);
      var date, key := r.value.value, (schedule.id, sequence);
      if Before(date, today) || key in values {
        ReachedExactly(schedule, today, through, sequence + 1, values, q);
      } else if !HasIdentity(values, schedule, Generated(schedule, sequence, date).identity) {
        var grown := values[key := Generated(schedule, sequence, date)];
        if q == sequence {
          RefreshOnlyAdds(schedule, today, through, sequence + 1, grown);
        } else {
          assert Missing(schedule, today, through, grown, q);
          ReachedExactly(schedule, today, through, sequence + 1, grown, q);
          forall p: U32 | sequence < p
            ensures Blocked(schedule, today, through, grown, p) <==> Blocked(schedule, today, through, values, p)
          {
            BlockedStays(schedule, today, through, sequence, values, p);
          }
        }
      }
    }
  }

  /** The entries that one refresh adds have different ids, so only a former entry can have the id of a new one. */
  lemma OldAgainstNew(schedule: Schedule, today: Date, through: Date, values: Entries, a: Key, b: Key)
    requires UniqueIds(values) && a != b
    requires var after := RefreshFrom(schedule, today, through, 0, values).values;
             a in after && b in after && after[a].id == after[b].id
    ensures || (a in values && b !in values && b.0 == schedule.id && Repeats(schedule, today, through, values, b.1, a))
            || (b in values && a !in values && a.0 == schedule.id && Repeats(schedule, today, through, values, a.1, b))
  {
    hide OccurrenceDate, RefreshFrom;
    RefreshOnlyAdds(schedule, today, through, 0, values);
    if a !in values && b !in values {
      if a.1 < b.1 {
        OccurrenceDatesIncrease(schedule, a.1, b.1);
        assert false;
      } else {
        OccurrenceDatesIncrease(schedule, b.1, a.1);
        assert false;
      }
    }
  }

  /**
   Ids stay unique through a refresh, failing or not, if and only if it does not clash; if it
   succeeds, if and only if no missing sequence of the window would get the id of an entry.
   */
  lemma {:induction false} RefreshKeepsIdsExactly(schedule: Schedule, today: Date, through: Date, values: Entries)
    requires UniqueIds(values)
    ensures var after := RefreshFrom(schedule, today, through, 0, values);
            && (UniqueIds(after.values) <==> !Clashes(schedule, today, through, values))
            && (after.outcome.Ok? ==>
                  (UniqueIds(after.values)
                   <==> !exists q: U32, key: Key :: Repeats(schedule, today, through, values, q, key)))
  {
    hide OccurrenceDate, Generated, RefreshFrom, Blocked;
    var after := RefreshFrom(schedule, today, through, 0, values);
    RefreshOnlyAdds(schedule, today, through, 0, values);
    DuplicateExactly(schedule, today, through, 0, values);
    if !UniqueIds(after.values) {
      var a, b :| a in after.values && b in after.values && after.values[a].id == after.values[b].id && a != b;
      OldAgainstNew(schedule, today, through, values, a, b);
      var former, added := if a in values then a else b, if a in values then b else a;
      assert Repeats(schedule, today, through, values, added.1, former);
      ReachedExactly(schedule, today, through, 0, values, added.1);
    }
    forall q: U32, key: Key | Repeats(schedule, today, through, values, q, key)
      && forall p: U32 :: p <= q ==> !Blocked(schedule, today, through, values, p)
      ensures !UniqueIds(after.values)
    {
      ReachedExactly(schedule, today, through, 0, values, q);
      assert after.values[key].id == after.values[(schedule.id, q)].id;
    }
  }

  /** When the window is already covered a refresh changes nothing and creates nothing. */
  lemma {:induction false} CoveredWindowIsIdle(schedule: Schedule, today: Date, through: Date, sequence: U32,
                                               values: Entries)
    requires forall q: U32 :: sequence <= q && InWindow(schedule, today, through, q) ==> (schedule.id, q) in values
    ensures var r := RefreshFrom(schedule, today, through, sequence, values);
            r.values == values && (r.outcome.Ok? ==> r.outcome.value == [])
    decreases Ordinal(through) + 1 - Ordinal(schedule.startDate) - sequence
  {
    hide OccurrenceDate, Ordinal;
    var r := OccurrenceDate(schedule, sequence);
    if r.Ok? && r.value.Some? && !Before(through, r.value.value) {
      ScanAdvances(schedule, through, sequence);
      assert !Before(r.value.value, today) ==> InWindow(schedule, today, through, sequence);
      CoveredWindowIsIdle(schedule, today, through, sequence + 1, values);
    }
  }

  /** What the dates decide alone: a scan that once ended without error ends without error again. */
  lemma {:induction false} CoveredWindowSucceeds(schedule: Schedule, today: Date, through: Date, sequence: U32,
                                                 values: Entries, covered: Entries)
    requires RefreshFrom(schedule, today, through, sequence, values).outcome.Ok?
    requires forall q: U32 :: sequence <= q && InWindow(schedule, today, through, q) ==> (schedule.id, q) in covered
    ensures RefreshFrom(schedule, today, through, sequence, covered).outcome.Ok?
    decreases Ordinal(through) + 1 - Ordinal(schedule.startDate) - sequence
  {
    hide OccurrenceDate, Ordinal;
    var r := OccurrenceDate(schedule, sequence);
    if r.value.Some? && !Before(through, r.value.value) {
      ScanAdvances(schedule, through, sequence);
      var date := r.value.value;
      var key := (schedule.id, sequence);
      assert !Before(date, today) ==> InWindow(schedule, today, through, sequence);
      var grown := if Before(date, today) || key in values then values
                   else values[key := Generated(schedule, sequence, date)];
      CoveredWindowSucceeds(schedule, today, through, sequence + 1, grown, covered);
    }
  }

  /** Repeating a successful refresh creates nothing and leaves every entry alone. */
  lemma RefreshIsIdempotent(schedule: Schedule, today: Date, lookAheadDays: U32, values: Entries)
    requires Refresh(schedule, today, lookAheadDays, values).outcome.Ok?
    ensures var after := Refresh(schedule, today, lookAheadDays, values).values;
            Refresh(schedule, today, lookAheadDays, after) == Refreshed(after, Ok([]))
  {
    if schedule.active {
      var through := AddDays(today, lookAheadDays).value;
      var after := RefreshFrom(schedule, today, through, 0, values).values;
      forall q: U32 | InWindow(schedule, today, through, q)
        ensures (schedule.id, q) in after
      {
        RefreshCoversWindow(schedule, today, through, 0, values, q);
      }
      CoveredWindowIsIdle(schedule, today, through, 0, after);
      CoveredWindowSucceeds(schedule, today, through, 0, values, after);
    }
  }

  // ----- Lookup by id -------------------------------------------------------------------------

  predicate KeyLess(a: Key, b: Key) {
    a.0 < b.0 || (a.0 == b.0 && a.1 < b.1)
  }

  predicate Matches(o: Occurrence, id: OccurrenceId, pendingOnly: bool) {
    o.id == id && (pendingOnly ==> o.disposition == Pending)
  }

  /** The keys that an ordered search of the entries may stop at. */
  function Candidates(values: Entries, id: OccurrenceId, pendingOnly: bool): set<Key> {
    set key | key in values && Matches(values[key], id, pendingOnly)
  }

  predicate IsLeast(keys: set<Key>, key: Key) {
    key in keys && forall other :: other in keys ==> other == key || KeyLess(key, other)
  }

  lemma {:induction false} LeastExists(keys: set<Key>)
    requires keys != {}
    ensures exists key :: IsLeast(keys, key)
    decreases |keys|
  {
    var key :| key in keys;
    var rest := keys - {key};
    assert keys == rest + {key};
    if rest == {} {
      assert IsLeast(keys, key);
    } else {
      LeastExists(rest);
      var least :| IsLeast(rest, least);
      var winner := if KeyLess(key, least) then key else least;
      assert IsLeast(keys, winner);
    }
  }

  /** The entry that `find` over the ordered map returns: the one with the least key. */
  ghost function Find(values: Entries, id: OccurrenceId, pendingOnly: bool): (r: Option<Key>)
    ensures r.None? <==> Candidates(values, id, pendingOnly) == {}
    ensures r.Some? ==> IsLeast(Candidates(values, id, pendingOnly), r.value)
  {
    var keys := Candidates(values, id, pendingOnly);
    if keys == {} then None
    else
      LeastExists(keys);
      var key :| IsLeast(keys, key);
      Some(key)
  }

  ghost function Dispose(values: Entries, id: OccurrenceId, disposition: Disposition): Result<Entries, ScheduleError> {
    match Find(values, id, true)
    case None => Err(OccurrenceUnavailable)
    case Some(key) => Ok(values[key := values[key].(disposition := disposition)])
  }

  ghost function Modify(values: Entries, id: OccurrenceId, date: Date, amount: Money): Result<Entries, ScheduleError> {
    match Find(values, id, true)
    case None => Err(OccurrenceUnavailable)
    case Some(key) =>
      var o := values[key];
      Ok(values[key := o.(identity := Modified(o.scheduleId, o.date, date, o.sequence), date := date, amount := amount)])
  }

  /** What callers are shown of an occurrence. */
  datatype Projection = Projection(
    id: OccurrenceId,
    identity: OccurrenceIdentity,
    scheduleId: ScheduleId,
    date: Date,
    amount: Money,
    disposition: Disposition)

  function Project(o: Occurrence): Projection {
    Projection(o.id, o.identity, o.scheduleId, o.date, o.amount, o.disposition)
  }

  /** The occurrences of a list of ids, as far as they are found. */
  ghost function Projections(values: Entries, ids: seq<OccurrenceId>): seq<Projection> {
    if ids == [] then []
    else
      var before := Projections(values, ids[..|ids| - 1]);
      match Find(values, ids[|ids| - 1], false)
      case None => before
      case Some(key) => before + [Project(values[key])]
  }

  /** A modified occurrence is found again under the id that it keeps. */
  lemma {:induction false} ModifiedIsFound(values: Entries, id: OccurrenceId, date: Date, amount: Money)
    requires Modify(values, id, date, amount).Ok?
    ensures Find(Modify(values, id, date, amount).value, id, false).Some?
  {
    var after := Modify(values, id, date, amount).value;
    var key := Find(values, id, true).value;
    assert key in Candidates(values, id, true);
    assert key in Candidates(after, id, false);
  }

  // ----- The store ----------------------------------------------------------------------------

  class OccurrenceStore {
    var values: Entries

    constructor ()
      ensures values == map[]
    {
      values := map[];
    }

    method RefreshSchedule(schedule: Schedule, today: Date, lookAheadDays: U32)
      returns (r: Result<seq<OccurrenceId>, ScheduleError>)
      modifies this
      ensures Refreshed(values, r) == Refresh(schedule, today, lookAheadDays, old(values))
    {
      hide OccurrenceDate, Ordinal;
      if !schedule.active {
        return Ok([]);
      }
      var last := AddDays(today, lookAheadDays);
      if last.None? {
        return Err(InvalidLookAhead);
      }
      var through := last.value;
      var created: seq<OccurrenceId> := [];
      var sequence: U32 := 0;
      ghost var total := RefreshFrom(schedule, today, through, 0, values);
      PrependParts(total, [], []);
      while true
        invariant total == RefreshFrom(schedule, today, through, sequence, values).Prepend(created)
        decreases Ordinal(through) + 1 - Ordinal(schedule.startDate) - sequence
      {
        var next :- OccurrenceDate(schedule, sequence);
        if next.None? || Before(through, next.value) {
          assert created + [] == created;
          break;
        }
        var date := next.value;
        ScanAdvances(schedule, through, sequence);
        if !Before(date, today) {
          var key := (schedule.id, sequence);
          var occurrence := Generated(schedule, sequence, date);
          if HasIdentity(values, schedule, occurrence.identity) && key !in values {
            return Err(DuplicateOccurrenceIdentity);
          }
          if key !in values {
            values := values[key := occurrence];
            PrependParts(RefreshFrom(schedule, today, through, sequence + 1, values), created, [occurrence.id]);
            created := created + [occurrence.id];
          }
        }
        sequence := sequence + 1;
      }
      return Ok(created);
    }

    method FindKey(id: OccurrenceId, pendingOnly: bool) returns (r: Option<Key>)
      ensures r == Find(values, id, pendingOnly)
    {
      var keys := Candidates(values, id, pendingOnly);
      if keys == {} {
        return None;
      }
      LeastExists(keys);
      var key: Key :| IsLeast(keys, key);
      return Some(key);
    }

    method SetDisposition(id: OccurrenceId, disposition: Disposition) returns (r: Result<(), ScheduleError>)
      modifies this
      ensures var outcome := Dispose(old(values), id, disposition);
              if outcome.Ok? then r == Ok(()) && values == outcome.value
              else r == Err(outcome.error) && values == old(values)
    {
      var key := FindKey(id, true);
      if key.None? {
        return Err(OccurrenceUnavailable);
      }
      values := values[key.value := values[key.value].(disposition := disposition)];
      return Ok(());
    }

    method ModifyOccurrence(id: OccurrenceId, date: Date, amount: Money) returns (r: Result<(), ScheduleError>)
      modifies this
      ensures var outcome := Modify(old(values), id, date, amount);
              if outcome.Ok? then r == Ok(()) && values == outcome.value
              else r == Err(outcome.error) && values == old(values)
    {
      var key := FindKey(id, true);
      if key.None? {
        return Err(OccurrenceUnavailable);
      }
      var o := values[key.value];
      values := values[key.value := o.(identity := Modified(o.scheduleId, o.date, date, o.sequence),
                                       date := date, amount := amount)];
      return Ok(());
    }
  }
}
