/** The reconciliation service over a shared ledger (`src/service/reconciliation_service.rs`, lines 53-400). */
module ReconciliationServices {
  import opened Wrappers
  import opened Cents
  import opened Calendar
  import opened Entities
  import opened Ledgers
  import opened Reconciliations
  import opened CheckedSums

  datatype ServiceError =
    | AccountNotFound
    | IneligibleTransaction
    | StaleTransaction
    | NonZeroDifference
    | ConfirmationRequired
    | StalePreview
    | ArithmeticOverflow
    | TransactionNotFound

  datatype AdjustmentPreview = AdjustmentPreview(amount: Money, resultingDifference: Money)

  class ReconciliationSession {
    var record: Reconciliation
    var original: Rows
    var selected: set<TransactionId>

    ghost function View(): Session
      reads this
    {
      Session(record, original, selected)
    }

    constructor (session: Session)
      ensures View() == session
    {
      record, original, selected := session.record, session.original, session.selected;
    }
  }

  ghost function WorldOf(ledger: Ledger, session: Option<Session>): World
    reads ledger
  {
    World(ledger.accounts, ledger.transactions, ledger.reconciliations, session)
  }

  /** No checked operation of a recalculation can fail, in whatever order the rows are added. */
  ghost predicate Safe(txs: Rows, s: Session) {
    && NeverOverflows(CountedAmounts(txs, s.record.accountId, s.record.statementDate, s.selected))
    && InRange(s.record.endingBalance - Calculated(txs, s))
  }

  /** The history lines of one change: one for each affected record and no other. */
  ghost predicate ChangeBlock(block: seq<ReconciliationChange>, affected: set<ReconciliationId>,
                              before: Transaction, after: Option<Transaction>) {
    && |block| == |affected|
    && (forall c :: c in block ==>
          c.reconciliationId in affected && c == ReconciliationChange(c.reconciliationId, before.id, before, after))
    && (forall r :: r in affected ==> ReconciliationChange(r, before.id, before, after) in block)
  }

  function AffectedIds(records: Records, account: AccountId, id: TransactionId): set<ReconciliationId> {
    set r | r in records && Affected(records, account, id, r)
  }

  /** The account's records from a statement date on. */
  function ChainFrom(records: Records, account: AccountId, start: Date): set<ReconciliationId> {
    set r | r in records && records[r].accountId == account && NotAfter(start, records[r].statementDate)
  }

  lemma OverflowApplies(w: World, e: Event, txs: Rows, attempt: Session, now: Session)
    requires Attempted(w, e) == Some((txs, attempt))
    requires exists stored :: now == HalfUpdated(txs, attempt, stored)
    ensures exists stored :: Apply(w, Overflowed(e, stored)) == Some(w.(transactions := txs, session := Some(now)))
  {
    hide Attempted, HalfUpdated;
    var stored :| now == HalfUpdated(txs, attempt, stored);
    assert Apply(w, Overflowed(e, stored)) == Some(w.(transactions := txs, session := Some(now)));
  }

  lemma NothingAffected(records: Records, account: AccountId, id: TransactionId)
    requires forall q :: q in records ==> !Includes(records[q], account, id)
    ensures Invalidated(records, account, id) == records
    ensures AffectedIds(records, account, id) == {}
  {
  }

  lemma AffectedFromEarliest(records: Records, account: AccountId, id: TransactionId, start: Date)
    requires exists q :: q in records && Includes(records[q], account, id) && records[q].statementDate == start
    requires forall q :: q in records && Includes(records[q], account, id) ==> NotAfter(start, records[q].statementDate)
    ensures forall r :: r in records ==>
              (Affected(records, account, id, r) <==> records[r].accountId == account && NotAfter(start, records[r].statementDate))
  {
  }

  lemma ChainFromEarliest(records: Records, account: AccountId, id: TransactionId, start: Date)
    requires exists q :: q in records && Includes(records[q], account, id) && records[q].statementDate == start
    requires forall q :: q in records && Includes(records[q], account, id) ==> NotAfter(start, records[q].statementDate)
    ensures var affected := ChainFrom(records, account, start);
            && affected == AffectedIds(records, account, id)
            && Invalidated(records, account, id)
               == (map r | r in records :: if r in affected then records[r].(state := PotentiallyInvalid) else records[r])
  {
    AffectedFromEarliest(records, account, id, start);
  }

  lemma EmptyBlock(t: Transaction, after: Option<Transaction>)
    ensures ChangeBlock([], {}, t, after)
  {
  }

  lemma BlockGrows(block: seq<ReconciliationChange>, logged: set<ReconciliationId>, t: Transaction,
                   after: Option<Transaction>, r: ReconciliationId)
    requires ChangeBlock(block, logged, t, after) && r !in logged
    ensures ChangeBlock(block + [ReconciliationChange(r, t.id, t, after)], logged + {r}, t, after)
  {
  }

  lemma DeleteApplies(w: World, id: TransactionId)
    requires id in w.transactions
    ensures var ids := DeletedIds(w.transactions, id);
            Apply(w, DeleteRow(id))
            == Some(w.(transactions := w.transactions - ids, records := InvalidatedByAll(w.records, w.transactions, ids)))
  {
  }

  lemma NothingInvalidated(records: Records, txs: Rows)
    ensures InvalidatedByAll(records, txs, {}) == records
  {
  }

  lemma SameAffected(a: Records, b: Records, account: AccountId, t: TransactionId, r: ReconciliationId)
    requires a.Keys == b.Keys
    requires forall q :: q in a ==> a[q].accountId == b[q].accountId && a[q].included == b[q].included
                                    && a[q].statementDate == b[q].statementDate
    ensures Affected(a, account, t, r) <==> Affected(b, account, t, r)
  {
    if Affected(a, account, t, r) {
      var q :| q in a && Includes(a[q], account, t) && NotAfter(a[q].statementDate, a[r].statementDate);
      assert Includes(b[q], account, t);
    }
    if Affected(b, account, t, r) {
      var q :| q in b && Includes(b[q], account, t) && NotAfter(b[q].statementDate, b[r].statementDate);
      assert Includes(a[q], account, t);
    }
  }

  lemma InvalidatedOneMore(records: Records, txs: Rows, ids: set<TransactionId>, t: TransactionId)
    requires t in txs
    ensures Invalidated(InvalidatedByAll(records, txs, ids), txs[t].accountId, t) == InvalidatedByAll(records, txs, ids + {t})
  {
    var middle := InvalidatedByAll(records, txs, ids);
    forall r
      ensures Affected(middle, txs[t].accountId, t, r) <==> Affected(records, txs[t].accountId, t, r)
    {
      SameAffected(records, middle, txs[t].accountId, t, r);
    }
    forall r
      ensures AffectedByAny(records, txs, ids + {t}, r)
         <==> AffectedByAny(records, txs, ids, r) || Affected(records, txs[t].accountId, t, r)
    {
    }
  }

  predicate DeletionLine(c: ReconciliationChange, records: Records, txs: Rows, t: TransactionId) {
    && t in txs && c.reconciliationId in AffectedIds(records, txs[t].accountId, t)
    && c == ReconciliationChange(c.reconciliationId, txs[t].id, txs[t], None)
  }

  /** The history lines of a deletion: for each deleted row, its last state under each affected record. */
  ghost predicate DeletionLines(lines: seq<ReconciliationChange>, records: Records, txs: Rows, ids: set<TransactionId>) {
    forall c :: c in lines <==> exists t :: t in ids && DeletionLine(c, records, txs, t)
  }

  lemma NoDeletionLines(lines: seq<ReconciliationChange>, records: Records, txs: Rows)
    requires lines == []
    ensures DeletionLines(lines, records, txs, {})
  {
  }

  lemma SameAffectedIds(records: Records, txs: Rows, gone: set<TransactionId>, t: TransactionId)
    requires t in txs
    ensures AffectedIds(InvalidatedByAll(records, txs, gone), txs[t].accountId, t) == AffectedIds(records, txs[t].accountId, t)
  {
    var middle := InvalidatedByAll(records, txs, gone);
    forall r
      ensures Affected(middle, txs[t].accountId, t, r) <==> Affected(records, txs[t].accountId, t, r)
    {
      SameAffected(records, middle, txs[t].accountId, t, r);
    }
  }

  lemma OneMoreDeletion(lines: seq<ReconciliationChange>, block: seq<ReconciliationChange>, records: Records, txs: Rows,
                        gone: set<TransactionId>, t: TransactionId)
    requires t in txs && DeletionLines(lines, records, txs, gone)
    requires ChangeBlock(block, AffectedIds(records, txs[t].accountId, t), txs[t], None)
    ensures DeletionLines(lines + block, records, txs, gone + {t})
  {
    hide AffectedIds;
    forall c
      ensures c in lines + block <==> exists x :: x in gone + {t} && DeletionLine(c, records, txs, x)
    {
      assert c in block <==> DeletionLine(c, records, txs, t);
      assert c in lines <==> exists x :: x in gone && DeletionLine(c, records, txs, x);
      if c in lines {
        var x :| x in gone && DeletionLine(c, records, txs, x);
        assert x in gone + {t};
      }
    }
  }

  class ReconciliationService {
    const ledger: Ledger

    constructor (ledger: Ledger)
      ensures this.ledger == ledger
    {
      this.ledger := ledger;
    }

    /** Brings the session's record up to date; a failure may leave only the new balance behind. */
    method Recalculate(session: ReconciliationSession) returns (r: Result<(), ServiceError>)
      modifies session`record
      ensures r.Ok? ==> Some(session.View()) == Recalculated(ledger.transactions, old(session.View()))
      ensures r.Err? ==> r.error == ArithmeticOverflow
                         && exists stored :: session.View() == HalfUpdated(ledger.transactions, old(session.View()), stored)
      ensures Safe(ledger.transactions, old(session.View())) ==> r.Ok?
    {
      var counted := CountedAmounts(ledger.transactions, session.record.accountId, session.record.statementDate, session.selected);
      var balance := CheckedTotal(counted);
      if balance.Err? {
        assert session.View() == HalfUpdated(ledger.transactions, old(session.View()), false);
        return Err(ArithmeticOverflow);
      }
      session.record := session.record.(calculatedClearedBalance := balance.value);
      var difference := CheckedSub(session.record.endingBalance, balance.value);
      if difference.Err? {
        assert session.View() == HalfUpdated(ledger.transactions, old(session.View()), true);
        return Err(ArithmeticOverflow);
      }
      session.record := session.record.(difference := difference.value, included := session.selected);
      return Ok(());
    }

    method Start(account: AccountId, date: Date, ending: Money, newId: ReconciliationId)
      returns (r: Result<ReconciliationSession, ServiceError>)
      requires newId !in ledger.reconciliations
      ensures r == Err(AccountNotFound) <==> account !in ledger.accounts
      ensures r.Ok? ==>
                && fresh(r.value)
                && Apply(WorldOf(ledger, None), StartSession(account, date, ending, newId))
                   == Some(WorldOf(ledger, Some(r.value.View())))
      ensures account in ledger.accounts ==>
                var opening := OpeningSession(ledger.transactions, ledger.accounts[account], account, date, ending, newId);
                Safe(ledger.transactions, opening) ==> r.Ok?
      ensures r.Err? ==> r.error == AccountNotFound || r.error == ArithmeticOverflow
    {
      hide Safe, Calculated, EligibleRows;
      if account !in ledger.accounts {
        return Err(AccountNotFound);
      }
      var session := new ReconciliationSession(
        OpeningSession(ledger.transactions, ledger.accounts[account], account, date, ending, newId));
      var updated := Recalculate(session);
      if updated.Err? {
        return Err(updated.error);
      }
      return Ok(session);
    }

    method SetClearedState(session: ReconciliationSession, id: TransactionId, cleared: bool)
      returns (r: Result<(), ServiceError>)
      modifies session
      ensures r == Err(IneligibleTransaction) <==> id !in old(session.original)
      ensures r == Err(IneligibleTransaction) ==> session.View() == old(session.View())
      ensures r.Ok? ==> Apply(WorldOf(ledger, Some(old(session.View()))), SetCleared(id, cleared))
                        == Some(WorldOf(ledger, Some(session.View())))
      ensures id in old(session.original) && r.Err? ==>
                && r.error == ArithmeticOverflow
                && exists stored :: Apply(WorldOf(ledger, Some(old(session.View()))), Overflowed(SetCleared(id, cleared), stored))
                                    == Some(WorldOf(ledger, Some(session.View())))
      ensures id in old(session.original) && Safe(ledger.transactions, Ticked(old(session.View()), id, cleared)) ==> r.Ok?
    {
      hide Safe, Calculated;
      ghost var before := WorldOf(ledger, Some(session.View()));
      if id !in session.original {
        return Err(IneligibleTransaction);
      }
      if cleared {
        session.selected := session.selected + {id};
      } else {
        session.selected := session.selected - {id};
      }
      ghost var ticked := session.View();
      r := Recalculate(session);
      if r.Err? {
        OverflowApplies(before, SetCleared(id, cleared), ledger.transactions, ticked, session.View());
      }
    }

    method Correction(session: ReconciliationSession, t: Transaction) returns (r: Result<(), ServiceError>)
      modifies session, ledger`transactions
      ensures r == Err(IneligibleTransaction) <==>
                || t.id !in old(session.original) || t.accountId != old(session.record).accountId
                || !NotAfter(t.date, old(session.record).statementDate)
      ensures r == Err(IneligibleTransaction) ==>
                session.View() == old(session.View()) && ledger.transactions == old(ledger.transactions)
      ensures r.Ok? ==> Apply(old(WorldOf(ledger, Some(session.View()))), Correct(t))
                        == Some(WorldOf(ledger, Some(session.View())))
      ensures r.Err? && r != Err(IneligibleTransaction) ==>
                && r.error == ArithmeticOverflow
                && exists stored :: Apply(old(WorldOf(ledger, Some(session.View()))), Overflowed(Correct(t), stored))
                                    == Some(WorldOf(ledger, Some(session.View())))
    {
      hide Safe, Calculated;
      ghost var before := WorldOf(ledger, Some(session.View()));
      if t.id !in session.original || t.accountId != session.record.accountId
         || !NotAfter(t.date, session.record.statementDate) {
        return Err(IneligibleTransaction);
      }
      ledger.transactions := ledger.transactions[t.id := t];
      session.original := session.original[t.id := t];
      ghost var corrected := session.View();
      r := Recalculate(session);
      if r.Err? {
        OverflowApplies(before, Correct(t), ledger.transactions, corrected, session.View());
      }
    }

    method PreviewAdjustment(session: ReconciliationSession) returns (r: Result<AdjustmentPreview, ServiceError>)
      ensures r == Ok(AdjustmentPreview(session.record.difference, 0))
    {
      var amount := session.record.difference;
      var resulting := CheckedSub(session.record.difference, amount);
      if resulting.Err? {
        return Err(ArithmeticOverflow);
      }
      return Ok(AdjustmentPreview(amount, resulting.value));
    }

    method ConfirmAdjustment(session: ReconciliationSession, preview: AdjustmentPreview, confirmed: bool,
                             payee: PayeeId, newRow: TransactionId) returns (r: Result<TransactionId, ServiceError>)
      requires newRow !in ledger.transactions
      modifies session, ledger`transactions
      ensures r.Ok? ==>
                && confirmed && preview == AdjustmentPreview(old(session.record).difference, 0) && r.value == newRow
                && Apply(old(WorldOf(ledger, Some(session.View()))), Adjust(payee, newRow))
                   == Some(WorldOf(ledger, Some(session.View())))
      ensures r == Err(ConfirmationRequired) <==> !confirmed
      ensures r == Err(StalePreview) <==> confirmed && preview != AdjustmentPreview(old(session.record).difference, 0)
      ensures r.Err? && r.error != ArithmeticOverflow ==>
                session.View() == old(session.View()) && ledger.transactions == old(ledger.transactions)
      ensures r.Err? && r.error == ArithmeticOverflow ==>
                exists stored :: Apply(old(WorldOf(ledger, Some(session.View()))), Overflowed(Adjust(payee, newRow), stored))
                                 == Some(WorldOf(ledger, Some(session.View())))
    {
      hide Safe, Calculated;
      ghost var before := WorldOf(ledger, Some(session.View()));
      if !confirmed {
        return Err(ConfirmationRequired);
      }
      var expected := PreviewAdjustment(session);
      if expected.value != preview {
        return Err(StalePreview);
      }
      if session.record.accountId !in ledger.accounts {
        return Err(AccountNotFound);
      }
      var account := ledger.accounts[session.record.accountId];
      var s := Session(session.record, session.original, session.selected);
      var t := AdjustmentRow(s, account.budgetId, session.record.accountId, payee, newRow);
      ledger.transactions := ledger.transactions[t.id := t];
      session.original := session.original[t.id := t];
      session.selected := session.selected + {t.id};
      ghost var adjusted := session.View();
      var updated := Recalculate(session);
      if updated.Err? {
        OverflowApplies(before, Adjust(payee, newRow), ledger.transactions, adjusted, session.View());
        return Err(updated.error);
      }
      return Ok(newRow);
    }

    /** Checks every ticked row, then stages the completion on copies and commits it at once. */
    method CompleteSession(session: ReconciliationSession) returns (r: Result<Reconciliation, ServiceError>)
      modifies ledger`transactions, ledger`reconciliations, ledger`audit
      ensures r.Ok? ==>
                && Apply(old(WorldOf(ledger, Some(session.View()))), Complete) == Some(WorldOf(ledger, None))
                && r.value.id in ledger.reconciliations && ledger.reconciliations[r.value.id] == r.value
                && ledger.audit == old(ledger.audit) + ["complete reconciliation"]
      ensures r.Err? ==>
                && ledger.transactions == old(ledger.transactions) && ledger.reconciliations == old(ledger.reconciliations)
                && ledger.audit == old(ledger.audit)
      ensures r == Err(NonZeroDifference) <==> session.record.difference != 0
      ensures CanComplete(old(ledger.transactions), session.View()) ==>
                Safe(old(ledger.transactions), session.View()) ==> r.Ok?
    {
      hide MarkedReconciled, Unchanged;
      if session.record.difference != 0 {
        return Err(NonZeroDifference);
      }
      ghost var s := session.View();
      var remaining := session.selected;
      while remaining != {}
        invariant remaining <= session.selected
        invariant forall id :: id in session.selected - remaining ==> Unchanged(ledger.transactions, s, id)
        decreases |remaining|
      {
        var id :| id in remaining;
        if !Unchanged(ledger.transactions, Session(session.record, session.original, session.selected), id) {
          return Err(StaleTransaction);
        }
        remaining := remaining - {id};
      }
      var counted := CountedAmounts(ledger.transactions, session.record.accountId, session.record.statementDate, session.selected);
      var balance := CheckedTotal(counted);
      if balance.Err? {
        return Err(ArithmeticOverflow);
      }
      var difference := CheckedSub(session.record.endingBalance, balance.value);
      if difference.Err? {
        return Err(ArithmeticOverflow);
      }
      var record := CompletedRecord(session.record, balance.value, difference.value);
      var staged := StageReconciled(record.included);
      if staged.Err? {
        return Err(staged.error);
      }
      ledger.transactions := staged.value;
      ledger.reconciliations := ledger.reconciliations[record.id := record];
      ledger.audit := ledger.audit + ["complete reconciliation"];
      return Ok(record);
    }

    /** The rows with the included ones reconciled, one at a time on a copy. */
    method StageReconciled(ids: set<TransactionId>) returns (r: Result<Rows, ServiceError>)
      ensures r.Ok? <==> ids <= ledger.transactions.Keys
      ensures r.Ok? ==> r.value == MarkedReconciled(ledger.transactions, ids)
      ensures r.Err? ==> r.error == StaleTransaction
    {
      var staged := ledger.transactions;
      var remaining := ids;
      assert staged == MarkedReconciled(ledger.transactions, {});
      while remaining != {}
        invariant remaining <= ids && ids - remaining <= ledger.transactions.Keys
        invariant staged == MarkedReconciled(ledger.transactions, ids - remaining)
        decreases |remaining|
      {
        var id :| id in remaining;
        if id !in staged {
          return Err(StaleTransaction);
        }
        ghost var marked := ids - remaining;
        staged := staged[id := staged[id].(clearance := Reconciled)];
        remaining := remaining - {id};
        assert ids - remaining == marked + {id};
      }
      assert ids - {} == ids;
      return Ok(staged);
    }

    /** Rewrites the records of the account from the earliest including statement on, and logs each. */
    method InvalidateChain(records: Records, changes: seq<ReconciliationChange>, t: Transaction, after: Option<Transaction>)
      returns (newRecords: Records, newChanges: seq<ReconciliationChange>)
      ensures newRecords == Invalidated(records, t.accountId, t.id)
      ensures changes <= newChanges
      ensures ChangeBlock(newChanges[|changes|..], AffectedIds(records, t.accountId, t.id), t, after)
    {
      hide Affected, AffectedIds, ChainFrom, Invalidated, ChangeBlock, Includes;
      newRecords, newChanges := records, changes;
      var start := EarliestIncluding(records, t.accountId, t.id);
      if start.None? {
        NothingAffected(records, t.accountId, t.id);
        EmptyBlock(t, after);
        assert newChanges[|changes|..] == [];
        return;
      }
      ChainFromEarliest(records, t.accountId, t.id, start.value);
      var affected := ChainFrom(records, t.accountId, start.value);
      newRecords := map r | r in records ::
        if r in affected then records[r].(state := PotentiallyInvalid) else records[r];
      newChanges := LogAll(changes, affected, t, after);
    }

    /** One history line for each record, in any order. */
    method LogAll(changes: seq<ReconciliationChange>, affected: set<ReconciliationId>, t: Transaction, after: Option<Transaction>)
      returns (newChanges: seq<ReconciliationChange>)
      ensures changes <= newChanges
      ensures ChangeBlock(newChanges[|changes|..], affected, t, after)
    {
      hide ChangeBlock;
      newChanges := changes;
      var remaining := affected;
      ghost var block: seq<ReconciliationChange> := [];
      EmptyBlock(t, after);
      assert affected - remaining == {};
      while remaining != {}
        invariant remaining <= affected
        invariant newChanges == changes + block
        invariant ChangeBlock(block, affected - remaining, t, after)
        decreases |remaining|
      {
        var r :| r in remaining;
        BlockGrows(block, affected - remaining, t, after, r);
        assert affected - remaining + {r} == affected - (remaining - {r});
        block := block + [ReconciliationChange(r, t.id, t, after)];
        newChanges := newChanges + [ReconciliationChange(r, t.id, t, after)];
        remaining := remaining - {r};
      }
      assert affected - {} == affected;
      assert newChanges[|changes|..] == block;
    }

    /** The earliest statement date among the account's records that include the row. */
    method EarliestIncluding(records: Records, account: AccountId, id: TransactionId) returns (start: Option<Date>)
      ensures start.None? <==> forall q :: q in records ==> !Includes(records[q], account, id)
      ensures start.Some? ==>
                && (exists q :: q in records && Includes(records[q], account, id) && records[q].statementDate == start.value)
                && (forall q :: q in records && Includes(records[q], account, id) ==> NotAfter(start.value, records[q].statementDate))
    {
      start := None;
      var remaining := records.Keys;
      while remaining != {}
        invariant remaining <= records.Keys
        invariant start.None? ==> forall q :: q in records && q !in remaining ==> !Includes(records[q], account, id)
        invariant start.Some? ==>
                    exists q :: q in records && Includes(records[q], account, id) && records[q].statementDate == start.value
        invariant start.Some? ==>
                    forall q :: q in records && q !in remaining && Includes(records[q], account, id) ==>
                      NotAfter(start.value, records[q].statementDate)
        decreases |remaining|
      {
        var q :| q in remaining;
        if Includes(records[q], account, id) && (start.None? || Before(records[q].statementDate, start.value)) {
          start := Some(records[q].statementDate);
        }
        remaining := remaining - {q};
      }
    }

    method EditReconciled(after: Transaction, confirmed: bool) returns (r: Result<(), ServiceError>)
      modifies ledger`transactions, ledger`reconciliations, ledger`reconciliationChanges
      ensures r == Err(TransactionNotFound) <==> after.id !in old(ledger.transactions)
      ensures r == Err(ConfirmationRequired) <==>
                after.id in old(ledger.transactions) && old(ledger.transactions)[after.id].clearance == Reconciled && !confirmed
      ensures r.Err? ==> WorldOf(ledger, None) == old(WorldOf(ledger, None))
                         && ledger.reconciliationChanges == old(ledger.reconciliationChanges)
      ensures r.Ok? && old(ledger.transactions)[after.id].id == after.id ==>
                && Apply(old(WorldOf(ledger, None)), EditRow(after)) == Some(WorldOf(ledger, None))
                && var before, records := old(ledger.transactions)[after.id], old(ledger.reconciliations);
                   && old(ledger.reconciliationChanges) <= ledger.reconciliationChanges
                   && ChangeBlock(ledger.reconciliationChanges[|old(ledger.reconciliationChanges)|..],
                                  AffectedIds(records, before.accountId, after.id), before, Some(after))
      ensures r.Err? ==> r.error == TransactionNotFound || r.error == ConfirmationRequired
    {
      if after.id !in ledger.transactions {
        return Err(TransactionNotFound);
      }
      var before := ledger.transactions[after.id];
      if before.clearance == Reconciled && !confirmed {
        return Err(ConfirmationRequired);
      }
      var staged := ledger.transactions[after.id := after];
      var records, changes := InvalidateChain(ledger.reconciliations, ledger.reconciliationChanges, before, Some(after));
      ledger.transactions, ledger.reconciliations, ledger.reconciliationChanges := staged, records, changes;
      return Ok(());
    }

    method DeleteReconciled(id: TransactionId, confirmed: bool) returns (r: Result<(), ServiceError>)
      modifies ledger`transactions, ledger`reconciliations, ledger`reconciliationChanges
      ensures r == Err(TransactionNotFound) <==> id !in old(ledger.transactions)
      ensures r == Err(ConfirmationRequired) <==>
                id in old(ledger.transactions) && old(ledger.transactions)[id].clearance == Reconciled && !confirmed
      ensures r.Err? ==> WorldOf(ledger, None) == old(WorldOf(ledger, None))
                         && ledger.reconciliationChanges == old(ledger.reconciliationChanges)
      ensures r.Ok? && (forall t :: t in old(ledger.transactions) ==> old(ledger.transactions)[t].id == t) ==>
                && Apply(old(WorldOf(ledger, None)), DeleteRow(id)) == Some(WorldOf(ledger, None))
                && old(ledger.reconciliationChanges) <= ledger.reconciliationChanges
                && DeletionLines(ledger.reconciliationChanges[|old(ledger.reconciliationChanges)|..],
                                 old(ledger.reconciliations), old(ledger.transactions), DeletedIds(old(ledger.transactions), id))
      ensures r.Err? ==> r.error == TransactionNotFound || r.error == ConfirmationRequired
    {
      hide InvalidatedByAll, Apply, DeletionLines;
      if id !in ledger.transactions {
        return Err(TransactionNotFound);
      }
      if ledger.transactions[id].clearance == Reconciled && !confirmed {
        return Err(ConfirmationRequired);
      }
      ghost var start := WorldOf(ledger, None);
      var ids := DeletedIds(ledger.transactions, id);
      var staged, records, changes := RemoveRows(ids);
      ledger.transactions, ledger.reconciliations, ledger.reconciliationChanges := staged, records, changes;
      DeleteApplies(start, id);
      return Ok(());
    }

    /** Removes the rows one at a time in any order, invalidating the chain of each, all on copies. */
    method RemoveRows(ids: set<TransactionId>)
      returns (staged: Rows, records: Records, changes: seq<ReconciliationChange>)
      requires ids <= ledger.transactions.Keys
      ensures staged == ledger.transactions - ids
      ensures (forall t :: t in ledger.transactions ==> ledger.transactions[t].id == t) ==>
                records == InvalidatedByAll(ledger.reconciliations, ledger.transactions, ids)
      ensures ledger.reconciliationChanges <= changes
      ensures (forall t :: t in ledger.transactions ==> ledger.transactions[t].id == t) ==>
                DeletionLines(changes[|ledger.reconciliationChanges|..], ledger.reconciliations, ledger.transactions, ids)
    {
      hide ChangeBlock, AffectedIds, Affected, Invalidated, InvalidatedByAll, DeletionLines;
      var txs, original := ledger.transactions, ledger.reconciliations;
      staged, records, changes := txs, original, ledger.reconciliationChanges;
      var remaining := ids;
      ghost var gone: set<TransactionId> := {};
      ghost var keyed := forall t :: t in txs ==> txs[t].id == t;
      NothingInvalidated(original, txs);
      ghost var logged := ledger.reconciliationChanges;
      NoDeletionLines(changes[|logged|..], original, txs);
      while remaining != {}
        invariant gone !! remaining && gone + remaining == ids
        invariant staged == txs - gone
        invariant keyed ==> records == InvalidatedByAll(original, txs, gone)
        invariant logged <= changes
        invariant keyed ==> DeletionLines(changes[|logged|..], original, txs, gone)
        decreases |remaining|
      {
        var t :| t in remaining;
        var removed := staged[t];
        ghost var earlier := changes;
        staged := staged - {t};
        records, changes := InvalidateChain(records, changes, removed, None);
        if keyed {
          InvalidatedOneMore(original, txs, gone, t);
          SameAffectedIds(original, txs, gone, t);
          OneMoreDeletion(earlier[|logged|..], changes[|earlier|..], original, txs, gone, t);
          assert changes[|logged|..] == earlier[|logged|..] + changes[|earlier|..];
        }
        gone, remaining := gone + {t}, remaining - {t};
      }
    }
  }
}
