/**
 When a transaction command is accepted and what it then writes, row by row and field by field
 (`src/service/transaction_service.rs`, lines 221-631).
 */
module TransactionFrames {
  import opened Wrappers
  import opened Cents
  import opened Calendar
  import opened Entities
  import opened Ledgers
  import opened Transfers

  // ----- Acceptance ---------------------------------------------------------------------------

  /** Split lines that a transaction may have: at least two, adding up to it without leaving 64 bits on the way. */
  predicate LinesFit(amount: Money, lines: seq<Subtransaction>) {
    |lines| >= 2 && ExactSum(lines) == amount && forall k :: 0 <= k <= |lines| ==> InRange(ExactSum(lines[..k]))
  }

  lemma {:induction false} SumFits(lines: seq<Subtransaction>)
    ensures CheckedSum(lines).Ok? <==> forall k :: 0 <= k <= |lines| ==> InRange(ExactSum(lines[..k]))
    ensures CheckedSum(lines).Ok? ==> CheckedSum(lines).value == ExactSum(lines)
  {
    assert lines[..|lines|] == lines;
    if lines != [] {
      var n := |lines| - 1;
      SumFits(lines[..n]);
      forall k | 0 <= k <= n ensures lines[..n][..k] == lines[..k] {
      }
    }
  }

  /** A row may be stored: its account is known and open, or the caller insists, and its lines fit. */
  predicate Postable(s: State, t: Transaction, confirmed: bool) {
    && t.accountId in s.accounts && (s.accounts[t.accountId].closed ==> confirmed)
    && (t.body.Split? ==> LinesFit(t.amount, t.body.lines))
  }

  /** A row may be changed: it is known and not reconciled, or the caller insists. */
  predicate Alterable(s: State, id: TransactionId, confirmed: bool) {
    id in s.transactions && (s.transactions[id].clearance == Reconciled ==> confirmed)
  }

  lemma CheckIsPostable(s: State, t: Transaction, confirmed: bool)
    ensures Check(s, t, confirmed).Ok? <==> Postable(s, t, confirmed)
  {
    if t.body.Split? {
      SumFits(t.body.lines);
    }
  }

  lemma MutationIsAlterable(s: State, id: TransactionId, confirmed: bool)
    ensures MutationCheck(s, id, confirmed).Ok? <==> Alterable(s, id, confirmed)
  {
  }

  /** The mark is the earliest date from which balances must be recalculated. */
  predicate MarkedFrom(before: Option<Date>, after: Option<Date>, date: Date) {
    && after.Some? && (after.value == date || after == before) && !Before(date, after.value)
    && (before.Some? ==> !Before(before.value, after.value))
  }

  lemma EarliestMarks(mark: Option<Date>, date: Date)
    ensures MarkedFrom(mark, Earliest(mark, date), date)
  {
  }

  lemma EarlierMarks(mark: Option<Date>, a: Date, b: Date)
    ensures var after := Earliest(mark, Earlier(a, b));
            MarkedFrom(mark, after, if Before(b, a) then b else a)
  {
  }

  /** The state after a command that rewrote the rows, moved the mark and added the line to the history. */
  predicate Wrote(s: State, after: State, rows: Transactions, from: Option<Date>, line: Option<string>) {
    && after.accounts == s.accounts && after.transactions == rows
    && (if from.None? then after.recalculationFrom == s.recalculationFrom
        else MarkedFrom(s.recalculationFrom, after.recalculationFrom, from.value))
    && after.audit == if line.None? then s.audit else s.audit + [line.value]
  }

  /** A command that fails leaves everything as it was. */
  lemma {:induction false} FailureChangesNothing(s: State, c: Command)
    requires Apply(s, c).error.Some?
    ensures Apply(s, c).state == s
  {
    hide Check, CheckedNeg, TransferBodies, MutationCheck, ApproveAll, DeleteAll, InvalidateFrom;
  }

  lemma {:induction false} SumOverflows(lines: seq<Subtransaction>)
    ensures CheckedSum(lines).Err? ==> CheckedSum(lines).error == SplitOverflow
  {
    if lines != [] {
      SumOverflows(lines[..|lines| - 1]);
    }
  }

  /** Why a row may not be stored: the first of the tests that fails. */
  lemma PostingFails(s: State, t: Transaction, confirmed: bool)
    ensures var error := Apply(s, Add(t, confirmed)).error;
            var open := t.accountId in s.accounts && (s.accounts[t.accountId].closed ==> confirmed);
            && (error == Some(AccountNotFound) <==> t.accountId !in s.accounts)
            && (error == Some(ConfirmationRequired) <==> t.accountId in s.accounts && !open)
            && (error == Some(InvalidTransaction(TooFewSplitLines)) <==> open && t.body.Split? && |t.body.lines| < 2)
            && (open && t.body.Split? && |t.body.lines| >= 2 ==>
                  var fits := forall k :: 0 <= k <= |t.body.lines| ==> InRange(ExactSum(t.body.lines[..k]));
                  && (error == Some(InvalidTransaction(SplitOverflow)) <==> !fits)
                  && (error == Some(InvalidTransaction(SplitTotalMismatch)) <==> fits && ExactSum(t.body.lines) != t.amount))
  {
    if t.body.Split? {
      SumFits(t.body.lines);
      SumOverflows(t.body.lines);
    }
    hide CheckedSum, InvalidateFrom;
  }

  /** Why one known row is not changed: it is unknown, or it is reconciled and the caller does not insist. */
  lemma ChangeFails(s: State, c: Command)
    requires c.Edit? || c.Delete? || c.SetClearance? || c.Categorize? || c.ChangePayee? || c.MoveToAccount?
    ensures var id := if c.Edit? then c.transaction.id else c.id;
            && (id !in s.transactions ==> Apply(s, c).error == Some(NotFound))
            && (id in s.transactions && !Alterable(s, id, c.confirmed) ==> Apply(s, c).error == Some(ConfirmationRequired))
            && (Alterable(s, id, c.confirmed) && s.transactions[id].body.Transfer? ==>
                  && (c.Delete? ==> Apply(s, c).error == Some(ConfirmationRequired))
                  && (c.Categorize? ==> Apply(s, c).error == Some(InvalidTransfer)))
  {
    hide Check, ApplyEditTransfer, InvalidateFrom, ApplyMove;
  }

  // ----- Ordinary rows ------------------------------------------------------------------------

  /** An added row is stored as given, if it may be. */
  lemma AddWrites(s: State, t: Transaction, confirmed: bool)
    ensures var r := Apply(s, Add(t, confirmed));
            && (r.error.None? <==> Postable(s, t, confirmed))
            && (r.error.None? ==> Wrote(s, r.state, s.transactions[t.id := t], Some(t.date), Some("add transaction")))
  {
    CheckIsPostable(s, t, confirmed);
    EarliestMarks(s.recalculationFrom, t.date);
    hide Check, Postable, MarkedFrom;
  }

  /** An edited row that is no transfer leg is replaced by the one given, if both rows may be changed and stored. */
  lemma EditWrites(s: State, t: Transaction, confirmed: bool, partner: Option<TransactionId>)
    requires t.id in s.transactions ==> !s.transactions[t.id].body.Transfer?
    ensures var r := Apply(s, Edit(t, confirmed, partner));
            && (r.error.None? <==> Alterable(s, t.id, confirmed) && Postable(s, t, confirmed))
            && (r.error.None? ==>
                  Wrote(s, r.state, s.transactions[t.id := t], Some(s.transactions[t.id].date),
                        Some(if confirmed then "confirmed edit" else "edit")))
  {
    CheckIsPostable(s, t, confirmed);
    MutationIsAlterable(s, t.id, confirmed);
    if t.id in s.transactions {
      EarliestMarks(s.recalculationFrom, s.transactions[t.id].date);
    }
    hide Check, Postable, MarkedFrom;
  }

  /** A deleted row that is no transfer leg goes, and only that one. */
  lemma DeleteWrites(s: State, id: TransactionId, confirmed: bool)
    ensures var r := Apply(s, Delete(id, confirmed));
            && (r.error.None? <==> Alterable(s, id, confirmed) && !s.transactions[id].body.Transfer?)
            && (r.error.None? ==>
                  Wrote(s, r.state, s.transactions - {id}, Some(s.transactions[id].date), Some("delete")))
  {
    if id in s.transactions {
      EarliestMarks(s.recalculationFrom, s.transactions[id].date);
    }
    hide MarkedFrom;
  }

  /** The same entry, whatever the identifier, clearance and approval of the two rows. */
  predicate SameEntry(a: Transaction, b: Transaction) {
    && b.budgetId == a.budgetId && b.accountId == a.accountId && b.date == a.date && b.payeeId == a.payeeId
    && b.amount == a.amount && b.memo == a.memo && b.body == a.body && b.archived == a.archived && b.voided == a.voided
  }

  /** A duplicate is a new row, uncleared and unapproved, with everything else as in the row it copies. */
  lemma DuplicateWrites(s: State, id: TransactionId, newId: TransactionId)
    ensures var r := Apply(s, Duplicate(id, newId));
            && (r.error.None? <==> id in s.transactions && !s.transactions[id].body.Transfer? && Postable(s, s.transactions[id], false))
            && (r.error.None? ==>
                  && newId in r.state.transactions
                  && var t, copy := s.transactions[id], r.state.transactions[newId];
                     && SameEntry(t, copy) && copy.id == newId && copy.clearance == Uncleared && copy.approval == Unapproved
                     && Wrote(s, r.state, s.transactions[newId := copy], Some(t.date), Some("add transaction")))
  {
    if id in s.transactions {
      var t := s.transactions[id].(id := newId, clearance := Uncleared, approval := Unapproved);
      CheckIsPostable(s, t, false);
      EarliestMarks(s.recalculationFrom, t.date);
      assert Postable(s, t, false) <==> Postable(s, s.transactions[id], false);
    }
    hide Check, Postable, MarkedFrom;
  }

  /** Approving changes nothing but the approval of the row. */
  lemma ApproveWrites(s: State, id: TransactionId)
    ensures var r := Apply(s, Approve(id));
            && (r.error.None? <==> id in s.transactions)
            && (r.error.None? ==>
                  && id in r.state.transactions
                  && var t, row := s.transactions[id], r.state.transactions[id];
                     && SameEntry(t, row) && row.id == t.id && row.clearance == t.clearance && row.approval == Approved
                     && Wrote(s, r.state, s.transactions[id := row], None, None))
  {
  }

  /** Setting the clearance changes nothing but that. */
  lemma ClearanceWrites(s: State, id: TransactionId, clearance: Clearance, confirmed: bool)
    ensures var r := Apply(s, SetClearance(id, clearance, confirmed));
            && (r.error.None? <==> Alterable(s, id, confirmed))
            && (r.error.None? ==>
                  && id in r.state.transactions
                  && var t, row := s.transactions[id], r.state.transactions[id];
                     && SameEntry(t, row) && row.id == t.id && row.approval == t.approval && row.clearance == clearance
                     && Wrote(s, r.state, s.transactions[id := row], None, None))
  {
  }

  /** Categorising changes nothing but the body of a row that is no transfer leg. */
  lemma CategorizeWrites(s: State, id: TransactionId, category: CategoryId, confirmed: bool)
    ensures var r := Apply(s, Categorize(id, category, confirmed));
            && (r.error.None? <==> Alterable(s, id, confirmed) && !s.transactions[id].body.Transfer?)
            && (r.error.None? ==>
                  && id in r.state.transactions
                  && var t, row := s.transactions[id], r.state.transactions[id];
                     && SameEntry(t, row.(body := t.body)) && row.id == t.id
                     && row.clearance == t.clearance && row.approval == t.approval && row.body == Categorized(category)
                     && Wrote(s, r.state, s.transactions[id := row], None, None))
  {
  }

  /** Changing the payee changes nothing but that. */
  lemma PayeeWrites(s: State, id: TransactionId, payee: Option<PayeeId>, confirmed: bool)
    ensures var r := Apply(s, ChangePayee(id, payee, confirmed));
            && (r.error.None? <==> Alterable(s, id, confirmed))
            && (r.error.None? ==>
                  && id in r.state.transactions
                  && var t, row := s.transactions[id], r.state.transactions[id];
                     && SameEntry(t, row.(payeeId := t.payeeId)) && row.id == t.id
                     && row.clearance == t.clearance && row.approval == t.approval && row.payeeId == payee
                     && Wrote(s, r.state, s.transactions[id := row], None, None))
  {
  }

  /** Moving changes nothing but the account of a row that is no transfer leg, to a known and open one. */
  lemma MoveWrites(s: State, id: TransactionId, account: AccountId, confirmed: bool)
    ensures var r := Apply(s, MoveToAccount(id, account, confirmed));
            && (r.error.None? <==>
                  && Alterable(s, id, confirmed) && !s.transactions[id].body.Transfer?
                  && account in s.accounts && (s.accounts[account].closed ==> confirmed))
            && (r.error.None? ==>
                  && id in r.state.transactions
                  && var t, row := s.transactions[id], r.state.transactions[id];
                     && SameEntry(t, row.(accountId := t.accountId)) && row.id == t.id
                     && row.clearance == t.clearance && row.approval == t.approval && row.accountId == account
                     && Wrote(s, r.state, s.transactions[id := row], None, None))
  {
  }

  // ----- Batches ------------------------------------------------------------------------------

  function Ids(ids: seq<TransactionId>): set<TransactionId> {
    set id | id in ids
  }

  lemma {:induction false} ApproveEach(s: State, ids: seq<TransactionId>)
    ensures var r := ApproveAll(s, ids);
            && (r.error.None? <==> Ids(ids) <= s.transactions.Keys)
            && (r.error.None? ==>
                  && r.state == s.(transactions := r.state.transactions) && r.state.transactions.Keys == s.transactions.Keys
                  && forall id :: id in s.transactions ==>
                       r.state.transactions[id] == if id in ids then s.transactions[id].(approval := Approved) else s.transactions[id])
  {
    if ids != [] {
      var init, last := ids[..|ids| - 1], ids[|ids| - 1];
      ApproveEach(s, init);
      assert Ids(ids) == Ids(init) + {last};
      assert forall id :: id in ids <==> id in init || id == last;
    }
  }

  /** A batch approves all its rows or, if one is unknown, changes nothing. */
  lemma {:induction false} BatchApproveWrites(s: State, ids: seq<TransactionId>)
    ensures var r := Apply(s, BatchApprove(ids));
            && (r.error.None? <==> forall i :: 0 <= i < |ids| ==> ids[i] in s.transactions)
            && (r.error.Some? ==> r.state == s)
            && (r.error.None? ==>
                  && Wrote(s, r.state, r.state.transactions, None, Some("atomic batch"))
                  && r.state.transactions.Keys == s.transactions.Keys
                  && forall id :: id in s.transactions ==>
                       r.state.transactions[id] == if id in ids then s.transactions[id].(approval := Approved) else s.transactions[id])
  {
    hide ApproveAll;
    ApproveEach(s, ids);
    assert Ids(ids) <= s.transactions.Keys <==> forall i :: 0 <= i < |ids| ==> ids[i] in s.transactions;
  }

  predicate Removable(s: State, id: TransactionId, confirmed: bool) {
    Alterable(s, id, confirmed) && !s.transactions[id].body.Transfer?
  }

  /** Rows that a batch may delete: different, known, no transfer legs, and not reconciled unless the caller insists. */
  predicate Deletable(s: State, ids: seq<TransactionId>, confirmed: bool) {
    && (forall i, j :: 0 <= i < j < |ids| ==> ids[i] != ids[j])
    && (forall i :: 0 <= i < |ids| ==> Removable(s, ids[i], confirmed))
  }

  lemma InvalidationKeepsRows(s: State)
    ensures forall date, rows :: InvalidateFrom(s.(transactions := rows), date).transactions == rows
                                 && InvalidateFrom(s.(transactions := rows), date).accounts == s.accounts
  {
  }

  lemma DeletableStep(s: State, ids: seq<TransactionId>, confirmed: bool)
    requires ids != []
    ensures var init, last := ids[..|ids| - 1], ids[|ids| - 1];
            Deletable(s, ids, confirmed) <==>
            Deletable(s, init, confirmed) && last !in init
            && Removable(s, last, confirmed)
  {
    hide Removable;
    var n := |ids| - 1;
    var init, last := ids[..n], ids[n];
    if Deletable(s, ids, confirmed) {
      forall i | 0 <= i < n ensures init[i] != last {
        assert ids[i] != ids[n];
      }
    }
    if Deletable(s, init, confirmed) && last !in init {
      forall i, j | 0 <= i < j < |ids| ensures ids[i] != ids[j] {
        assert ids[i] == init[i];
        assert j < n ==> ids[j] == init[j];
      }
      if Removable(s, last, confirmed) {
        forall i | 0 <= i < |ids| ensures Removable(s, ids[i], confirmed) {
          assert i < n ==> ids[i] == init[i];
        }
      }
    }
  }

  lemma {:induction false} DeleteEach(s: State, ids: seq<TransactionId>, confirmed: bool)
    ensures var r := DeleteAll(s, ids, confirmed);
            && (r.error.None? <==> Deletable(s, ids, confirmed))
            && (r.error.None? ==> r.state.transactions == s.transactions - Ids(ids) && r.state.accounts == s.accounts)
  {
    hide InvalidateFrom;
    if ids == [] {
      assert Ids(ids) == {};
    } else {
      var init, last := ids[..|ids| - 1], ids[|ids| - 1];
      DeleteEach(s, init, confirmed);
      InvalidationKeepsRows(DeleteAll(s, init, confirmed).state);
      assert Ids(ids) == Ids(init) + {last};
      var before := DeleteAll(s, init, confirmed);
      if before.error.None? {
        assert last in before.state.transactions <==> last in s.transactions && last !in init;
        assert Deletable(s, ids, confirmed) <==>
               last !in init && Removable(s, last, confirmed) by {
          DeletableStep(s, ids, confirmed);
        }
      } else {
        DeletableStep(s, ids, confirmed);
      }
    }
  }

  /** After a batch the mark is the earliest of the old one and the dates of the deleted rows. */
  predicate MarkedFromAll(s: State, after: Option<Date>, ids: seq<TransactionId>) {
    && (after == s.recalculationFrom
        || exists i :: 0 <= i < |ids| && ids[i] in s.transactions && after == Some(s.transactions[ids[i]].date))
    && (s.recalculationFrom.Some? ==> after.Some? && !Before(s.recalculationFrom.value, after.value))
    && (forall i :: 0 <= i < |ids| && ids[i] in s.transactions ==>
          after.Some? && !Before(s.transactions[ids[i]].date, after.value))
  }

  lemma NotBeforeChain(a: Date, b: Date, c: Date)
    requires !Before(a, b) && !Before(b, c)
    ensures !Before(a, c)
  {
  }

  lemma OneMoreMark(s: State, before: Option<Date>, after: Option<Date>, ids: seq<TransactionId>, last: TransactionId)
    requires MarkedFromAll(s, before, ids) && last in s.transactions && MarkedFrom(before, after, s.transactions[last].date)
    ensures MarkedFromAll(s, after, ids + [last])
  {
    var all := ids + [last];
    assert all[|ids|] == last;
    if before.Some? {
      if s.recalculationFrom.Some? {
        NotBeforeChain(s.recalculationFrom.value, before.value, after.value);
      }
      forall i | 0 <= i < |ids| && ids[i] in s.transactions
        ensures !Before(s.transactions[ids[i]].date, after.value)
      {
        NotBeforeChain(s.transactions[ids[i]].date, before.value, after.value);
      }
    }
    hide Before;
    if after == before && after != s.recalculationFrom {
      var i :| 0 <= i < |ids| && ids[i] in s.transactions && after == Some(s.transactions[ids[i]].date);
      assert all[i] == ids[i];
    }
    forall i | 0 <= i < |all| && all[i] in s.transactions
      ensures after.Some? && !Before(s.transactions[all[i]].date, after.value)
    {
      assert i < |ids| ==> all[i] == ids[i];
    }
  }

  lemma DeleteLast(s: State, ids: seq<TransactionId>, confirmed: bool)
    requires ids != [] && DeleteAll(s, ids, confirmed).error.None?
    ensures var before, last := DeleteAll(s, ids[..|ids| - 1], confirmed).state, ids[|ids| - 1];
            && last in before.transactions
            && DeleteAll(s, ids, confirmed).state
               == Log(InvalidateFrom(before.(transactions := before.transactions - {last}), before.transactions[last].date), "delete")
  {
    hide InvalidateFrom;
  }

  lemma {:induction false} DeleteHistory(s: State, ids: seq<TransactionId>, confirmed: bool)
    requires DeleteAll(s, ids, confirmed).error.None?
    ensures var after := DeleteAll(s, ids, confirmed).state;
            MarkedFromAll(s, after.recalculationFrom, ids) && after.audit == s.audit + seq(|ids|, _ => "delete")
  {
    if ids == [] {
      assert s.audit + seq(0, _ => "delete") == s.audit;
    } else {
      var init, last := ids[..|ids| - 1], ids[|ids| - 1];
      DeleteHistory(s, init, confirmed);
      DeleteEach(s, init, confirmed);
      var before := DeleteAll(s, init, confirmed).state;
      assert before.transactions[last] == s.transactions[last];
      hide MarkedFromAll, MarkedFrom, Earliest, DeleteAll;
      assert DeleteAll(s, ids, confirmed).state
          == Log(InvalidateFrom(before.(transactions := before.transactions - {last}), s.transactions[last].date), "delete") by {
        DeleteLast(s, ids, confirmed);
      }
      EarliestMarks(before.recalculationFrom, s.transactions[last].date);
      OneMoreMark(s, before.recalculationFrom, DeleteAll(s, ids, confirmed).state.recalculationFrom, init, last);
      assert ids == init + [last];
      assert seq(|ids|, _ => "delete") == seq(|init|, _ => "delete") + ["delete"];
    }
  }

  /** A batch deletes all its rows or, if one cannot be deleted, changes nothing. */
  lemma {:induction false} BatchDeleteWrites(s: State, ids: seq<TransactionId>, confirmed: bool)
    ensures var r := Apply(s, BatchDelete(ids, confirmed));
            && (r.error.None? <==> Deletable(s, ids, confirmed))
            && (r.error.Some? ==> r.state == s)
            && (r.error.None? ==>
                  && r.state.accounts == s.accounts
                  && MarkedFromAll(s, r.state.recalculationFrom, ids)
                  && r.state.audit == s.audit + seq(|ids|, _ => "delete") + ["atomic batch"]
                  && (forall id :: id in r.state.transactions <==> id in s.transactions && id !in ids)
                  && (forall id :: id in r.state.transactions ==> r.state.transactions[id] == s.transactions[id]))
  {
    hide DeleteAll, Deletable, MarkedFromAll;
    DeleteEach(s, ids, confirmed);
    if DeleteAll(s, ids, confirmed).error.None? {
      DeleteHistory(s, ids, confirmed);
    }
  }

  // ----- Transfers ----------------------------------------------------------------------------

  /** Two accounts that a transfer may join: both known, different, of one budget. */
  predicate Joinable(s: State, source: AccountId, destination: AccountId) {
    && source in s.accounts && destination in s.accounts
    && s.accounts[source].id != s.accounts[destination].id
    && s.accounts[source].budgetId == s.accounts[destination].budgetId
  }

  /** A fresh leg of a transfer: approved, uncleared, without payee, naming the other account and amount. */
  predicate IsLeg(t: Transaction, id: TransactionId, a: AccountId, account: Account, other: Account, date: Date, amount: int,
                  transfer: TransferId)
  {
    && t.id == id && t.accountId == a && t.budgetId == account.budgetId && t.date == date && t.amount == amount
    && t.payeeId == None && t.clearance == Uncleared && t.approval == Approved && !t.archived && !t.voided
    && t.body.Transfer? && t.body.transferId == transfer && t.body.amount == amount
    && t.body.otherAccountId == other.id && t.body.otherAmount == 0 - amount
  }

  /** Both legs of a new transfer, with the amount taken from the source and given to the destination. */
  predicate NewLegs(s: State, after: Transactions, source: AccountId, destination: AccountId, date: Date, amount: Money, ids: Fresh) {
    && source in s.accounts && destination in s.accounts && ids.left in after && ids.right in after
    && var a, b, left, right := s.accounts[source], s.accounts[destination], after[ids.left], after[ids.right];
       && IsLeg(left, ids.left, source, a, b, date, amount, ids.transfer)
       && IsLeg(right, ids.right, destination, b, a, date, 0 - amount, ids.transfer)
       && left.body.sourceAccountId == right.body.sourceAccountId == a.id
       && left.body.destinationAccountId == right.body.destinationAccountId == b.id
       && after == s.transactions[ids.left := left][ids.right := right]
  }

  /** A transfer writes its two legs and no other row, if the accounts can be joined and the amount has an opposite. */
  lemma {:induction false} TransferWrites(s: State, source: AccountId, destination: AccountId, date: Date, amount: Money, ids: Fresh)
    requires ids.left != ids.right
    ensures var r := Apply(s, CreateTransfer(source, destination, date, amount, ids));
            && (r.error.None? <==> Joinable(s, source, destination) && InRange(0 - amount))
            && (r.error.None? ==>
                  && NewLegs(s, r.state.transactions, source, destination, date, amount, ids)
                  && (forall id :: id in {ids.left, ids.right} ==>
                        var t := r.state.transactions[id];
                        t.memo == None && t.body.transferCategory == None && t.body.categoryEffectAccount == None)
                  && Wrote(s, r.state, r.state.transactions, Some(date), None))
  {
    EarliestMarks(s.recalculationFrom, date);
    hide MarkedFrom, Earliest;
  }

  /** The same with a category, the account it takes effect on, which must be one of the two, and a memo on both legs. */
  lemma {:induction false} CategorizedTransferWrites(s: State, c: Command)
    requires c.CreateCategorizedTransfer? && c.drawn.left != c.drawn.right
    ensures var r := Apply(s, c);
            && (r.error.None? <==>
                  && Joinable(s, c.source, c.destination) && InRange(0 - c.sourceAmount)
                  && (c.effect.Some? ==> c.effect.value == c.source || c.effect.value == c.destination))
            && (r.error.None? ==>
                  && NewLegs(s, r.state.transactions, c.source, c.destination, c.date, c.sourceAmount, c.drawn)
                  && (forall id :: id in {c.drawn.left, c.drawn.right} ==>
                        var t := r.state.transactions[id];
                        t.memo == c.memo && t.body.transferCategory == c.category && t.body.categoryEffectAccount == c.effect)
                  && Wrote(s, r.state, r.state.transactions, Some(c.date), Some("atomic categorized transfer create")))
  {
    EarliestMarks(s.recalculationFrom, c.date);
    hide MarkedFrom, Earliest;
  }

  /** A row and the one that the search came across, both of which may be changed. */
  predicate AlterablePair(s: State, id: TransactionId, confirmed: bool, partner: Option<TransactionId>) {
    && Alterable(s, id, confirmed) && s.transactions[id].body.Transfer?
    && partner.Some? && Alterable(s, partner.value, confirmed)
  }

  /** A leg with another date and amount, its body naming the amount of the other one. */
  predicate LegMoved(before: Transaction, after: Transaction, date: Date, amount: int) {
    && after.id == before.id && after.budgetId == before.budgetId && after.accountId == before.accountId
    && after.payeeId == before.payeeId && after.memo == before.memo && after.clearance == before.clearance
    && after.approval == before.approval && after.archived == before.archived && after.voided == before.voided
    && after.date == date && after.amount == amount
    && before.body.Transfer? && after.body.Transfer? && after.body.otherAmount == 0 - amount
    && after.body == before.body.(otherAmount := after.body.otherAmount)
  }

  /** The edited leg gets the amount and the other one its opposite; both get the date, and no other row changes. */
  predicate LegsMoved(s: State, after: State, id: TransactionId, partner: TransactionId, date: Date, amount: Money) {
    && id in s.transactions && partner in s.transactions && id in after.transactions && partner in after.transactions
    && LegMoved(s.transactions[id], after.transactions[id], date, amount)
    && LegMoved(s.transactions[partner], after.transactions[partner], date, 0 - amount)
    && Wrote(s, after, s.transactions[id := after.transactions[id]][partner := after.transactions[partner]],
             Some(if Before(date, s.transactions[id].date) then date else s.transactions[id].date), None)
  }

  /** Editing a transfer, from either leg. */
  lemma {:induction false} EditTransferWrites(s: State, id: TransactionId, date: Date, amount: Money, confirmed: bool,
                                              partner: Option<TransactionId>)
    requires partner.Some? ==> IsPartner(s.transactions, id, partner.value)
    ensures var r := Apply(s, EditTransfer(id, date, amount, confirmed, partner));
            && (r.error.None? <==> AlterablePair(s, id, confirmed, partner) && InRange(0 - amount))
            && (r.error.None? ==> LegsMoved(s, r.state, id, partner.value, date, amount))
  {
    if id in s.transactions {
      EarlierMarks(s.recalculationFrom, s.transactions[id].date, date);
    }
    hide MarkedFrom, Earliest;
  }

  /** An edit of a row that is a transfer leg edits the transfer: of the given row only date and amount are used. */
  lemma {:induction false} EditOfLegWrites(s: State, t: Transaction, confirmed: bool, partner: Option<TransactionId>)
    requires t.id in s.transactions && s.transactions[t.id].body.Transfer?
    requires partner.Some? ==> IsPartner(s.transactions, t.id, partner.value)
    ensures var r := Apply(s, Edit(t, confirmed, partner));
            && (r.error.None? <==> AlterablePair(s, t.id, confirmed, partner) && InRange(0 - t.amount) && Postable(s, t, confirmed))
            && (r.error.None? ==> LegsMoved(s, r.state, t.id, partner.value, t.date, t.amount))
  {
    CheckIsPostable(s, t, confirmed);
    MutationIsAlterable(s, t.id, confirmed);
    EditTransferWrites(s, t.id, t.date, t.amount, confirmed, partner);
    hide Check, Postable, ApplyEditTransfer, LegsMoved;
  }

  /** Deleting a transfer removes its two legs and no other row. */
  lemma {:induction false} DeleteBothWrites(s: State, id: TransactionId, confirmed: bool, partner: Option<TransactionId>)
    requires partner.Some? ==> IsPartner(s.transactions, id, partner.value)
    ensures var r := Apply(s, DeleteTransferBoth(id, confirmed, partner));
            && (r.error.None? <==> AlterablePair(s, id, confirmed, partner))
            && (r.error.None? ==>
                  var a, b := s.transactions[id].date, s.transactions[partner.value].date;
                  Wrote(s, r.state, s.transactions - {id, partner.value}, Some(if Before(b, a) then b else a), None))
  {
    if id in s.transactions && partner.Some? && partner.value in s.transactions {
      EarlierMarks(s.recalculationFrom, s.transactions[id].date, s.transactions[partner.value].date);
      assert s.transactions - {id} - {partner.value} == s.transactions - {id, partner.value};
    }
    hide MarkedFrom, Earliest;
  }

  /** Unlinking turns the two legs into uncategorised rows that keep everything else. */
  lemma {:induction false} UnlinkWrites(s: State, id: TransactionId, confirmed: bool, partner: Option<TransactionId>)
    requires partner.Some? ==> IsPartner(s.transactions, id, partner.value)
    ensures var r := Apply(s, UnlinkTransfer(id, confirmed, partner));
            && (r.error.None? <==> AlterablePair(s, id, confirmed, partner))
            && (r.error.None? ==>
                  && r.state == s.(transactions := r.state.transactions) && r.state.transactions.Keys == s.transactions.Keys
                  && forall x :: x in s.transactions ==>
                       var a, b := s.transactions[x], r.state.transactions[x];
                       if x == id || x == partner.value then b.body == OpeningBalance(None) && b.(body := a.body) == a else b == a)
  {
  }
}
