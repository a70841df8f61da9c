/**
 Which rows a reconciliation takes up, ticks off and reconciles, and what each of its operations
 writes (`src/service/reconciliation_service.rs`, lines 53-399).
 */
module StatementRows {
  import opened Wrappers
  import opened Cents
  import opened Calendar
  import opened Entities
  import opened Sums
  import opened Ledgers
  import opened Reconciliations

  // ----- What counts --------------------------------------------------------------------------

  /** The amounts that make up the balance of a statement. */
  function StatementAmounts(txs: Rows, account: AccountId, through: Date, ticked: set<TransactionId>): map<TransactionId, Money> {
    map id | id in txs && txs[id].accountId == account && !Before(through, txs[id].date)
             && !txs[id].archived && !txs[id].voided && (txs[id].clearance == Reconciled || id in ticked) :: txs[id].amount
  }

  /** An open session shows the sum of the rows on its account through its date that are reconciled or ticked off. */
  predicate ShowsBalance(txs: Rows, s: Session, balance: int) {
    && s.record.calculatedClearedBalance == balance
    && s.record.difference == s.record.endingBalance - balance
    && s.record.included == s.selected
  }

  ghost predicate UpToDateSession(txs: Rows, s: Session) {
    ShowsBalance(txs, s, Total(StatementAmounts(txs, s.record.accountId, s.record.statementDate, s.selected)))
  }

  lemma SameAmounts(txs: Rows, account: AccountId, through: Date, ticked: set<TransactionId>)
    ensures CountedAmounts(txs, account, through, ticked) == StatementAmounts(txs, account, through, ticked)
  {
  }

  lemma RecalculatedShows(txs: Rows, s: Session)
    requires Recalculated(txs, s).Some?
    ensures var r := Recalculated(txs, s).value;
            && UpToDateSession(txs, r)
            && r.original == s.original && r.selected == s.selected
            && r.record == s.record.(calculatedClearedBalance := r.record.calculatedClearedBalance,
                                     difference := r.record.difference, included := r.record.included)
  {
    SameAmounts(txs, s.record.accountId, s.record.statementDate, s.selected);
  }

  /** A recalculation fails exactly when the balance or the difference to the statement has no 64-bit value. */
  lemma RecalculationFails(txs: Rows, s: Session)
    ensures var balance := Total(StatementAmounts(txs, s.record.accountId, s.record.statementDate, s.selected));
            Recalculated(txs, s).None? <==> !InRange(balance) || !InRange(s.record.endingBalance - balance)
  {
    SameAmounts(txs, s.record.accountId, s.record.statementDate, s.selected);
  }

  /** Whether an operation finds its account or rows; what may still fail is the recalculation. */
  ghost predicate Possible(w: World, e: Event) {
    match e
    case StartSession(account, _, _, newId) => w.session.None? && account in w.accounts && newId !in w.records
    case SetCleared(id, _) => w.session.Some? && id in w.session.value.original
    case Correct(t) =>
      w.session.Some? && t.id in w.session.value.original && t.accountId == w.session.value.record.accountId
      && !Before(w.session.value.record.statementDate, t.date)
    case Adjust(_, newRow) =>
      w.session.Some? && w.session.value.record.accountId in w.accounts && newRow !in w.transactions
    case Overflowed(attempt, _) => !attempt.StartSession? && SessionStep(attempt) && Possible(w, attempt)
    case Complete =>
      && w.session.Some? && w.session.value.record.difference == 0
      && w.session.value.record.included <= w.transactions.Keys
      && forall id :: id in w.session.value.selected ==>
           && id in w.transactions && id in w.session.value.original && w.session.value.original[id] == w.transactions[id]
           && w.transactions[id].accountId == w.session.value.record.accountId
           && w.transactions[id].clearance != Reconciled
    case EditRow(t) => t.id in w.transactions
    case DeleteRow(id) => id in w.transactions
    case Abandon => true
  }

  lemma AttemptIsPossible(w: World, e: Event)
    ensures Attempted(w, e).Some? <==> SessionStep(e) && Possible(w, e)
  {
  }

  /** An operation that happens was possible; one that is possible happens unless its recalculation fails. */
  lemma {:induction false} HappensWhenPossible(w: World, e: Event)
    ensures Apply(w, e).Some? ==> Possible(w, e)
    ensures Possible(w, e) && (e.EditRow? || e.DeleteRow? || e.Abandon? || e.Overflowed?) ==> Apply(w, e).Some?
    ensures Possible(w, Complete) ==>
              var s := w.session.value;
              (Apply(w, Complete).Some? <==> Recalculated(w.transactions, s).Some?)
  {
    hide Calculated;
    if e.Overflowed? {
      AttemptIsPossible(w, e.attempt);
    } else if SessionStep(e) {
      AttemptIsPossible(w, e);
    }
    if Possible(w, Complete) {
      var s := w.session.value;
      assert forall id :: id in s.selected ==> Unchanged(w.transactions, s, id);
    }
    if e.Complete? && Apply(w, e).Some? {
      assert forall id :: id in w.session.value.selected ==> Unchanged(w.transactions, w.session.value, id);
    }
  }

  /** An operation whose recalculation overflows keeps its writes; of the record at most the balance has changed. */
  lemma {:induction false} OverflowWrites(w: World, attempt: Event, stored: bool)
    requires Apply(w, Overflowed(attempt, stored)).Some?
    ensures var after := Apply(w, Overflowed(attempt, stored)).value;
            && w.session.Some? && after.session.Some? && after == w.(transactions := after.transactions, session := after.session)
            && var s, next := w.session.value, after.session.value;
               && next.record == s.record.(calculatedClearedBalance := next.record.calculatedClearedBalance)
               && (attempt.SetCleared? ==>
                     && after.transactions == w.transactions && next.original == s.original
                     && forall x :: x in next.selected <==> if x == attempt.id then attempt.cleared else x in s.selected)
               && (attempt.Correct? ==>
                     && after.transactions == w.transactions[attempt.transaction.id := attempt.transaction]
                     && next.original == s.original[attempt.transaction.id := attempt.transaction] && next.selected == s.selected)
               && (attempt.Adjust? ==>
                     && attempt.newRow in after.transactions
                     && after.transactions == w.transactions[attempt.newRow := after.transactions[attempt.newRow]]
                     && next.original == s.original[attempt.newRow := after.transactions[attempt.newRow]]
                     && next.selected == s.selected + {attempt.newRow})
  {
    hide Calculated;
  }

  // ----- Starting -----------------------------------------------------------------------------

  /**
   A session starts with exactly the account's rows through the statement date that are neither
   reconciled nor archived nor voided, and with exactly the cleared ones of them ticked off.
   */
  lemma {:induction false} StartTakesUp(w: World, account: AccountId, date: Date, ending: Money, newId: ReconciliationId)
    requires Apply(w, StartSession(account, date, ending, newId)).Some?
    ensures var after := Apply(w, StartSession(account, date, ending, newId)).value;
            && w.session.None? && account in w.accounts && after.session.Some? && after == w.(session := after.session)
            && var s := after.session.value;
               && (forall id :: id in s.original <==>
                     && id in w.transactions && w.transactions[id].accountId == account
                     && !Before(date, w.transactions[id].date) && w.transactions[id].clearance != Reconciled
                     && !w.transactions[id].archived && !w.transactions[id].voided)
               && (forall id :: id in s.original ==> s.original[id] == w.transactions[id])
               && (forall id :: id in s.selected <==> id in s.original && w.transactions[id].clearance == Cleared)
               && s.record.id == newId && s.record.accountId == account && s.record.budgetId == w.accounts[account].budgetId
               && s.record.statementDate == date && s.record.endingBalance == ending && s.record.state == Active
               && UpToDateSession(w.transactions, s)
  {
    hide Calculated, UpToDateSession, Recalculated;
    RecalculatedShows(w.transactions, OpeningSession(w.transactions, w.accounts[account], account, date, ending, newId));
    assert Apply(w, StartSession(account, date, ending, newId)).value.session
        == Recalculated(w.transactions, OpeningSession(w.transactions, w.accounts[account], account, date, ending, newId));
  }

  // ----- Working ------------------------------------------------------------------------------

  /** What an operation on the open session leaves as it was. */
  predicate KeepsStatement(before: Session, after: Session) {
    && after.record.id == before.record.id && after.record.budgetId == before.record.budgetId
    && after.record.accountId == before.record.accountId && after.record.statementDate == before.record.statementDate
    && after.record.endingBalance == before.record.endingBalance && after.record.state == before.record.state
  }

  /** Ticking a row off or on changes only whether that row is ticked, and recalculates. */
  lemma {:induction false} TickWrites(w: World, id: TransactionId, cleared: bool)
    requires Apply(w, SetCleared(id, cleared)).Some?
    ensures var after := Apply(w, SetCleared(id, cleared)).value;
            && w.session.Some? && after.session.Some? && after == w.(session := after.session)
            && var s, next := w.session.value, after.session.value;
               && id in s.original && next.original == s.original && KeepsStatement(s, next)
               && (forall x :: x in next.selected <==> if x == id then cleared else x in s.selected)
               && UpToDateSession(after.transactions, next)
  {
    hide Calculated, UpToDateSession, Recalculated;
    RecalculatedShows(w.transactions, Ticked(w.session.value, id, cleared));
  }

  /** A correction replaces one taken-up row, which stays on the account and in the period, and recalculates. */
  lemma {:induction false} CorrectionWrites(w: World, t: Transaction)
    requires Apply(w, Correct(t)).Some?
    ensures var after := Apply(w, Correct(t)).value;
            && w.session.Some? && after.session.Some?
            && after == w.(transactions := w.transactions[t.id := t], session := after.session)
            && var s, next := w.session.value, after.session.value;
               && t.id in s.original && t.accountId == s.record.accountId && !Before(s.record.statementDate, t.date)
               && next.original == s.original[t.id := t] && next.selected == s.selected && KeepsStatement(s, next)
               && UpToDateSession(after.transactions, next)
  {
    hide Calculated, UpToDateSession, Recalculated;
    RecalculatedShows(w.transactions[t.id := t], Observed(w.session.value, t));
  }

  /** An adjustment adds one ticked, cleared and approved row over the difference, on the statement date. */
  lemma {:induction false} AdjustmentWrites(w: World, payee: PayeeId, newRow: TransactionId)
    requires Apply(w, Adjust(payee, newRow)).Some?
    ensures var after := Apply(w, Adjust(payee, newRow)).value;
            && w.session.Some? && after.session.Some? && newRow !in w.transactions && newRow in after.transactions
            && var s, next, t := w.session.value, after.session.value, after.transactions[newRow];
               && after == w.(transactions := w.transactions[newRow := t], session := after.session)
               && s.record.accountId in w.accounts
               && t.id == newRow && t.accountId == s.record.accountId && t.budgetId == w.accounts[t.accountId].budgetId
               && t.date == s.record.statementDate && t.amount == s.record.difference && t.payeeId == Some(payee)
               && t.clearance == Cleared && t.approval == Approved && t.body == OpeningBalance(None)
               && t.memo == Some("Reconciliation adjustment (Ready to Assign)") && !t.archived && !t.voided
               && next.original == s.original[newRow := t] && next.selected == s.selected + {newRow} && KeepsStatement(s, next)
               && UpToDateSession(after.transactions, next)
  {
    hide Calculated, UpToDateSession, Recalculated;
    var s := w.session.value;
    var t := AdjustmentRow(s, w.accounts[s.record.accountId].budgetId, s.record.accountId, payee, newRow);
    RecalculatedShows(w.transactions[t.id := t], Ticked(Observed(s, t), t.id, true));
  }

  // ----- Completing ---------------------------------------------------------------------------

  /** Every row of an open session is on its account and dated no later than its statement. */
  ghost predicate InPeriod(w: World) {
    w.session.Some? ==>
      var s := w.session.value;
      forall id :: id in s.original ==>
        s.original[id].accountId == s.record.accountId && !Before(s.record.statementDate, s.original[id].date)
  }

  lemma OverflowKeepsPeriod(w: World, attempt: Event, stored: bool)
    requires InPeriod(w) && Apply(w, Overflowed(attempt, stored)).Some?
    ensures InPeriod(Apply(w, Overflowed(attempt, stored)).value)
  {
    hide Calculated;
  }

  lemma SessionStays(w: World, e: Event)
    requires e.Complete? || e.EditRow? || e.DeleteRow? || e.Abandon?
    requires Apply(w, e).Some?
    ensures Apply(w, e).value.session == w.session || Apply(w, e).value.session.None?
  {
    hide Calculated, CanComplete;
  }

  /** Every event, overflowing ones included, keeps the rows of the session in its period. */
  lemma {:induction false} EventKeepsPeriod(w: World, e: Event)
    requires InPeriod(w) && Apply(w, e).Some?
    ensures InPeriod(Apply(w, e).value)
  {
    hide Apply, UpToDateSession;
    match e
    case StartSession(account, date, ending, newId) => StartTakesUp(w, account, date, ending, newId);
    case SetCleared(id, cleared) => TickWrites(w, id, cleared);
    case Correct(t) => CorrectionWrites(w, t);
    case Adjust(payee, newRow) => AdjustmentWrites(w, payee, newRow);
    case Overflowed(attempt, stored) => OverflowKeepsPeriod(w, attempt, stored);
    case _ => SessionStays(w, e);
  }

  lemma {:induction false} RunKeepsPeriod(w: World, events: seq<Event>)
    requires InPeriod(w) && Run(w, events).Some?
    ensures InPeriod(Run(w, events).value)
    decreases |events|
  {
    hide Apply, InPeriod;
    if events != [] {
      EventKeepsPeriod(w, events[0]);
      RunKeepsPeriod(Apply(w, events[0]).value, events[1..]);
    }
  }

  lemma {:induction false} RunStaysSettled(w: World, events: seq<Event>)
    requires Run(w, events).Some? && (w.session.Some? ==> Settled(w.session.value))
    requires forall i :: 0 <= i < |events| ==> !events[i].Overflowed?
    ensures var final := Run(w, events).value; final.session.Some? ==> Settled(final.session.value)
    decreases |events|
  {
    hide Apply, Settled;
    if events != [] {
      StaysSettled(w, events[0]);
      RunStaysSettled(Apply(w, events[0]).value, events[1..]);
    }
  }

  /** What a completion writes: the listed rows become reconciled and nothing else of any row changes. */
  lemma {:induction false} CompletionWrites(w: World)
    requires Apply(w, Complete).Some?
    ensures var after := Apply(w, Complete).value;
            && w.session.Some? && after.session.None? && after.accounts == w.accounts
            && var s := w.session.value;
               && s.record.difference == 0 && s.record.included <= w.transactions.Keys
               && after.transactions.Keys == w.transactions.Keys
               && (forall id :: id in w.transactions ==>
                     after.transactions[id]
                     == if id in s.record.included then w.transactions[id].(clearance := Reconciled) else w.transactions[id])
               && after.records.Keys == w.records.Keys + {s.record.id}
               && (forall r :: r in w.records && r != s.record.id ==> after.records[r] == w.records[r])
               && var record := after.records[s.record.id];
                  && record.state == Completed && record.included == s.record.included
                  && record.accountId == s.record.accountId && record.statementDate == s.record.statementDate
                  && record.budgetId == s.record.budgetId && record.endingBalance == s.record.endingBalance
                  && record.calculatedClearedBalance
                     == Total(StatementAmounts(w.transactions, record.accountId, record.statementDate, s.selected))
                  && record.difference == record.endingBalance - record.calculatedClearedBalance
  {
    var s := w.session.value;
    SameAmounts(w.transactions, s.record.accountId, s.record.statementDate, s.selected);
    hide CountedAmounts, StatementAmounts, Unchanged;
  }

  /** A completion tests each ticked row: unchanged since it was taken up, and not yet reconciled. */
  lemma CompletionTests(w: World, id: TransactionId)
    requires Apply(w, Complete).Some? && id in w.session.value.selected && InPeriod(w)
    ensures var s := w.session.value;
            && id in w.transactions && id in s.original && w.transactions[id] == s.original[id]
            && w.transactions[id].accountId == s.record.accountId && w.transactions[id].clearance != Reconciled
            && !Before(s.record.statementDate, w.transactions[id].date)
  {
    hide Calculated;
    assert Unchanged(w.transactions, w.session.value, id);
  }

  lemma NoSessionInPeriod(w: World)
    requires w.session.None?
    ensures InPeriod(w)
  {
  }

  /**
   In every run without overflow a completion reconciles exactly the rows that are ticked off, each
   of which is on the account and dated no later than the statement, and touches no other row.
   */
  lemma {:induction false} RunCompletesTickedRows(w: World, events: seq<Event>)
    requires w.session.None? && Run(w, events).Some?
    requires forall i :: 0 <= i < |events| ==> !events[i].Overflowed?
    requires Apply(Run(w, events).value, Complete).Some?
    ensures var before, after := Run(w, events).value, Apply(Run(w, events).value, Complete).value;
            && before.session.Some?
            && var s := before.session.value;
               && after.transactions.Keys == before.transactions.Keys
               && (forall id :: id in before.transactions ==>
                     after.transactions[id]
                     == if id in s.selected then before.transactions[id].(clearance := Reconciled) else before.transactions[id])
               && (forall id :: id in s.selected ==>
                     && id in before.transactions && before.transactions[id].clearance != Reconciled
                     && before.transactions[id].accountId == s.record.accountId
                     && !Before(s.record.statementDate, before.transactions[id].date))
  {
    hide Apply, Run, InPeriod;
    var before := Run(w, events).value;
    assert InPeriod(w) by {
      NoSessionInPeriod(w);
    }
    RunKeepsPeriod(w, events);
    RunStaysSettled(w, events);
    CompletionWrites(before);
    forall id | id in before.session.value.selected
      ensures id in before.transactions && before.transactions[id].clearance != Reconciled
      ensures before.transactions[id].accountId == before.session.value.record.accountId
      ensures !Before(before.session.value.record.statementDate, before.transactions[id].date)
    {
      CompletionTests(before, id);
    }
  }

  // ----- Changes to reconciled rows -----------------------------------------------------------

  /** A record of the account dated no earlier than a record that lists the row. */
  ghost predicate InChain(records: Records, account: AccountId, id: TransactionId, r: ReconciliationId) {
    && r in records && records[r].accountId == account
    && exists q :: q in records && records[q].accountId == account && id in records[q].included
                   && !Before(records[r].statementDate, records[q].statementDate)
  }

  lemma ChainIsAffected(records: Records, account: AccountId, id: TransactionId, r: ReconciliationId)
    ensures InChain(records, account, id, r) <==> Affected(records, account, id, r)
  {
    if Affected(records, account, id, r) {
      var q :| q in records && Includes(records[q], account, id) && NotAfter(records[q].statementDate, records[r].statementDate);
      assert id in records[q].included;
    }
    if InChain(records, account, id, r) {
      var q :| q in records && records[q].accountId == account && id in records[q].included
               && !Before(records[r].statementDate, records[q].statementDate);
      assert Includes(records[q], account, id);
    }
  }

  /** Editing a row replaces it and marks just the chain of its former account, in the state alone. */
  lemma {:induction false} EditWrites(w: World, t: Transaction)
    requires Apply(w, EditRow(t)).Some?
    ensures var after := Apply(w, EditRow(t)).value;
            && t.id in w.transactions && after == w.(transactions := w.transactions[t.id := t], records := after.records)
            && after.records.Keys == w.records.Keys
            && forall r :: r in w.records ==>
                 after.records[r] == if InChain(w.records, w.transactions[t.id].accountId, t.id, r)
                                     then w.records[r].(state := PotentiallyInvalid) else w.records[r]
  {
    forall r ensures InChain(w.records, w.transactions[t.id].accountId, t.id, r)
                <==> Affected(w.records, w.transactions[t.id].accountId, t.id, r) {
      ChainIsAffected(w.records, w.transactions[t.id].accountId, t.id, r);
    }
    hide InChain, Affected;
  }

  /** A row goes with a deletion when it is the deleted one or a leg of the same transfer. */
  predicate GoesWith(txs: Rows, id: TransactionId, t: TransactionId) {
    && id in txs && t in txs
    && if txs[id].body.Transfer? then txs[t].body.Transfer? && txs[t].body.transferId == txs[id].body.transferId else t == id
  }

  /** Deleting a row removes it, with every leg of its transfer, and marks just the chains of the removed rows. */
  lemma {:induction false} DeletionWrites(w: World, id: TransactionId)
    requires Apply(w, DeleteRow(id)).Some?
    ensures var after := Apply(w, DeleteRow(id)).value;
            && id in w.transactions && after == w.(transactions := after.transactions, records := after.records)
            && (forall t :: t in after.transactions <==> t in w.transactions && !GoesWith(w.transactions, id, t))
            && (forall t :: t in after.transactions ==> after.transactions[t] == w.transactions[t])
            && after.records.Keys == w.records.Keys
            && forall r :: r in w.records ==>
                 after.records[r]
                 == if exists t :: GoesWith(w.transactions, id, t) && InChain(w.records, w.transactions[t].accountId, t, r)
                    then w.records[r].(state := PotentiallyInvalid) else w.records[r]
  {
    var ids := DeletedIds(w.transactions, id);
    assert forall t :: t in ids <==> GoesWith(w.transactions, id, t);
    forall r
      ensures AffectedByAny(w.records, w.transactions, ids, r)
         <==> exists t :: GoesWith(w.transactions, id, t) && InChain(w.records, w.transactions[t].accountId, t, r)
    {
      forall t | t in ids
        ensures InChain(w.records, w.transactions[t].accountId, t, r) <==> Affected(w.records, w.transactions[t].accountId, t, r)
      {
        ChainIsAffected(w.records, w.transactions[t].accountId, t, r);
      }
    }
    hide InChain, Affected, AffectedByAny, GoesWith;
  }
}
