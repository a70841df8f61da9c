/** The transaction service over a shared ledger (`src/service/transaction_service.rs`, lines 221-573). */
module TransactionServices {
  import opened Wrappers
  import opened Cents
  import opened Calendar
  import opened Entities
  import opened Ledgers
  import opened Transfers

  /** What transaction commands see of a ledger. */
  ghost function View(ledger: Ledger): State
    reads ledger
  {
    State(ledger.accounts, ledger.transactions, ledger.recalculationFrom, ledger.audit)
  }

  function ErrorOf<T>(r: Result<T, ServiceError>): Option<ServiceError> {
    if r.Ok? then None else Some(r.error)
  }

  lemma {:induction false} FailedBatch(s: State, ids: seq<TransactionId>, confirmed: bool, at: nat)
    requires at <= |ids|
    ensures ApproveAll(s, ids[..at]).error.Some? ==> ApproveAll(s, ids) == ApproveAll(s, ids[..at])
    ensures DeleteAll(s, ids[..at], confirmed).error.Some? ==> DeleteAll(s, ids, confirmed) == DeleteAll(s, ids[..at], confirmed)
    decreases |ids|
  {
    hide ApplyApprove, ApplyDelete;
    if at < |ids| {
      assert ids[..|ids| - 1][..at] == ids[..at];
      FailedBatch(s, ids[..|ids| - 1], confirmed, at);
    } else {
      assert ids[..at] == ids;
    }
  }

  lemma BatchOutcome(s: State, ids: seq<TransactionId>, result: Outcome)
    requires ApproveAll(s, ids) == result
    ensures result.error.Some? ==> Apply(s, BatchApprove(ids)) == Fail(s, result.error.value)
    ensures result.error.None? ==> Apply(s, BatchApprove(ids)) == Done(Log(result.state, "atomic batch"))
  {
    hide ApplyApprove, ApproveAll;
  }

  lemma NothingApproved(s: State, ids: seq<TransactionId>)
    ensures ApproveAll(s, ids[..0]) == Done(s)
  {
  }

  lemma ApproveStep(s: State, ids: seq<TransactionId>, i: nat)
    requires i < |ids| && ApproveAll(s, ids[..i]).error.None?
    ensures ApproveAll(s, ids[..i + 1]) == ApplyApprove(ApproveAll(s, ids[..i]).state, ids[i])
  {
    hide ApplyApprove;
    assert ids[..i + 1][..i] == ids[..i];
  }

  /** The invariant carries over to the state after a legal command. */
  ghost predicate Kept(before: State, c: Command, after: State) {
    Invariant(before) && Legal(before, c) ==> Invariant(after)
  }

  lemma KeepsPairs(s: State, c: Command)
    ensures Kept(s, c, Apply(s, c).state)
  {
    hide Invariant, Apply, Legal;
    if Invariant(s) && Legal(s, c) {
      CommandKeepsPairs(s, c);
    }
  }

  class TransactionService {
    const ledger: Ledger

    constructor (ledger: Ledger)
      ensures this.ledger == ledger
    {
      this.ledger := ledger;
    }

    method MarkFrom(date: Date)
      modifies ledger`recalculationFrom
      ensures View(ledger) == InvalidateFrom(old(View(ledger)), date)
    {
      ledger.recalculationFrom := Earliest(ledger.recalculationFrom, date);
    }

    method CheckRow(t: Transaction, confirmed: bool) returns (r: Result<(), ServiceError>)
      ensures r == Check(View(ledger), t, confirmed)
    {
      if t.accountId !in ledger.accounts {
        return Err(AccountNotFound);
      }
      if ledger.accounts[t.accountId].closed && !confirmed {
        return Err(ConfirmationRequired);
      }
      var valid := ValidateTransaction(t);
      return if valid.Ok? then Ok(()) else Err(InvalidTransaction(valid.error));
    }

    method CheckMutation(id: TransactionId, confirmed: bool) returns (r: Result<(), ServiceError>)
      ensures r == MutationCheck(View(ledger), id, confirmed)
    {
      if id !in ledger.transactions {
        return Err(NotFound);
      }
      if ledger.transactions[id].clearance == Reconciled && !confirmed {
        return Err(ConfirmationRequired);
      }
      return Ok(());
    }

    method AddRow(t: Transaction, confirmed: bool) returns (r: Result<(), ServiceError>)
      modifies ledger`transactions, ledger`recalculationFrom, ledger`audit
      ensures Outcome(View(ledger), ErrorOf(r)) == Apply(old(View(ledger)), Add(t, confirmed))
      ensures Kept(old(View(ledger)), Add(t, confirmed), View(ledger))
    {
      hide Kept;
      KeepsPairs(View(ledger), Add(t, confirmed));
      var _ :- CheckRow(t, confirmed);
      MarkFrom(t.date);
      ledger.transactions := ledger.transactions[t.id := t];
      ledger.audit := ledger.audit + ["add transaction"];
      return Ok(());
    }

    /** The first other row of the transfer that the unordered search meets. */
    method FindPartner(id: TransactionId) returns (partner: Option<TransactionId>)
      ensures SearchFound(ledger.transactions, id, partner)
    {
      if p :| p in ledger.transactions && IsPartner(ledger.transactions, id, p) {
        return Some(p);
      }
      return None;
    }

    method CheckPair(id: TransactionId, confirmed: bool)
      returns (r: Result<TransactionId, ServiceError>, ghost partner: Option<TransactionId>)
      ensures SearchFound(ledger.transactions, id, partner)
      ensures r == PairCheck(View(ledger), id, confirmed, partner)
      ensures r.Ok? ==> IsPartner(ledger.transactions, id, r.value)
      ensures r.Ok? && !confirmed ==>
                ledger.transactions[id].clearance != Reconciled && ledger.transactions[r.value].clearance != Reconciled
      ensures r == Err(NotFound) <==> id !in ledger.transactions
    {
      var found := FindPartner(id);
      partner := found;
      if id !in ledger.transactions {
        return Err(NotFound), partner;
      }
      if !ledger.transactions[id].body.Transfer? || found.None? {
        return Err(InvalidTransfer), partner;
      }
      var first := CheckMutation(id, confirmed);
      if first.Err? {
        return Err(first.error), partner;
      }
      var second := CheckMutation(found.value, confirmed);
      if second.Err? {
        return Err(second.error), partner;
      }
      return Ok(found.value), partner;
    }

    method EditBoth(id: TransactionId, date: Date, amount: Money, confirmed: bool)
      returns (r: Result<(), ServiceError>, ghost partner: Option<TransactionId>)
      modifies ledger`transactions, ledger`recalculationFrom
      ensures SearchFound(old(ledger.transactions), id, partner)
      ensures Outcome(View(ledger), ErrorOf(r)) == Apply(old(View(ledger)), EditTransfer(id, date, amount, confirmed, partner))
      ensures Kept(old(View(ledger)), EditTransfer(id, date, amount, confirmed, partner), View(ledger))
    {
      hide Kept;
      ghost var start := View(ledger);
      forall p: Option<TransactionId>
        ensures Kept(start, EditTransfer(id, date, amount, confirmed, p), Apply(start, EditTransfer(id, date, amount, confirmed, p)).state)
      {
        KeepsPairs(start, EditTransfer(id, date, amount, confirmed, p));
      }
      hide PairCheck;
      var pair;
      pair, partner := CheckPair(id, confirmed);
      if pair.Err? {
        return Err(pair.error), partner;
      }
      var opposite := CheckedNeg(amount);
      if opposite.Err? {
        return Err(InvalidTransfer), partner;
      }
      var p, oldDate := pair.value, ledger.transactions[id].date;
      ledger.transactions := ledger.transactions[id := WithAmount(ledger.transactions[id], date, amount, opposite.value)];
      ledger.transactions := ledger.transactions[p := WithAmount(ledger.transactions[p], date, opposite.value, amount)];
      MarkFrom(Earlier(oldDate, date));
      return Ok(()), partner;
    }

    /** Redirects an edit of a transfer leg to the edit of both legs. */
    method EditRow(t: Transaction, confirmed: bool)
      returns (r: Result<(), ServiceError>, ghost partner: Option<TransactionId>)
      modifies ledger`transactions, ledger`recalculationFrom, ledger`audit
      ensures SearchFound(old(ledger.transactions), t.id, partner)
      ensures Outcome(View(ledger), ErrorOf(r)) == Apply(old(View(ledger)), Edit(t, confirmed, partner))
      ensures Kept(old(View(ledger)), Edit(t, confirmed, partner), View(ledger))
    {
      hide Kept;
      ghost var start := View(ledger);
      forall p: Option<TransactionId>
        ensures Kept(start, Edit(t, confirmed, p), Apply(start, Edit(t, confirmed, p)).state)
      {
        KeepsPairs(start, Edit(t, confirmed, p));
      }
      ghost var found := FindPartner(t.id);
      partner := found;
      var mutable := CheckMutation(t.id, confirmed);
      if mutable.Err? {
        return Err(mutable.error), partner;
      }
      var checked := CheckRow(t, confirmed);
      if checked.Err? {
        return Err(checked.error), partner;
      }
      var existing := ledger.transactions[t.id];
      if existing.body.Transfer? {
        r, partner := EditBoth(t.id, t.date, t.amount, confirmed);
        return;
      }
      ledger.transactions := ledger.transactions[t.id := t];
      MarkFrom(existing.date);
      ledger.audit := ledger.audit + [if confirmed then "confirmed edit" else "edit"];
      return Ok(()), partner;
    }

    method DeleteRow(id: TransactionId, confirmed: bool) returns (r: Result<(), ServiceError>)
      modifies ledger`transactions, ledger`recalculationFrom, ledger`audit
      ensures Outcome(View(ledger), ErrorOf(r)) == Apply(old(View(ledger)), Delete(id, confirmed))
      ensures Kept(old(View(ledger)), Delete(id, confirmed), View(ledger))
    {
      hide Kept;
      KeepsPairs(View(ledger), Delete(id, confirmed));
      var _ :- CheckMutation(id, confirmed);
      var t := ledger.transactions[id];
      if t.body.Transfer? {
        return Err(ConfirmationRequired);
      }
      ledger.transactions := ledger.transactions - {id};
      MarkFrom(t.date);
      ledger.audit := ledger.audit + ["delete"];
      return Ok(());
    }

    method DuplicateRow(id: TransactionId, newId: TransactionId) returns (r: Result<TransactionId, ServiceError>)
      modifies ledger`transactions, ledger`recalculationFrom, ledger`audit
      ensures Outcome(View(ledger), ErrorOf(r)) == Apply(old(View(ledger)), Duplicate(id, newId))
      ensures r.Ok? ==> r.value == newId
      ensures Kept(old(View(ledger)), Duplicate(id, newId), View(ledger))
    {
      hide Kept;
      KeepsPairs(View(ledger), Duplicate(id, newId));
      if id !in ledger.transactions {
        return Err(NotFound);
      }
      var t := ledger.transactions[id].(id := newId, clearance := Uncleared, approval := Unapproved);
      if t.body.Transfer? {
        return Err(InvalidTransfer);
      }
      var _ :- AddRow(t, false);
      return Ok(newId);
    }

    method ApproveRow(id: TransactionId) returns (r: Result<(), ServiceError>)
      modifies ledger`transactions
      ensures Outcome(View(ledger), ErrorOf(r)) == Apply(old(View(ledger)), Approve(id))
      ensures Kept(old(View(ledger)), Approve(id), View(ledger))
    {
      hide Kept;
      KeepsPairs(View(ledger), Approve(id));
      if id !in ledger.transactions {
        return Err(NotFound);
      }
      ledger.transactions := ledger.transactions[id := ledger.transactions[id].(approval := Approved)];
      return Ok(());
    }

    method ClearRow(id: TransactionId, clearance: Clearance, confirmed: bool) returns (r: Result<(), ServiceError>)
      modifies ledger`transactions
      ensures Outcome(View(ledger), ErrorOf(r)) == Apply(old(View(ledger)), SetClearance(id, clearance, confirmed))
      ensures Kept(old(View(ledger)), SetClearance(id, clearance, confirmed), View(ledger))
    {
      hide Kept;
      KeepsPairs(View(ledger), SetClearance(id, clearance, confirmed));
      var _ :- CheckMutation(id, confirmed);
      ledger.transactions := ledger.transactions[id := ledger.transactions[id].(clearance := clearance)];
      return Ok(());
    }

    method CategorizeRow(id: TransactionId, category: CategoryId, confirmed: bool) returns (r: Result<(), ServiceError>)
      modifies ledger`transactions
      ensures Outcome(View(ledger), ErrorOf(r)) == Apply(old(View(ledger)), Categorize(id, category, confirmed))
      ensures Kept(old(View(ledger)), Categorize(id, category, confirmed), View(ledger))
    {
      hide Kept;
      KeepsPairs(View(ledger), Categorize(id, category, confirmed));
      var _ :- CheckMutation(id, confirmed);
      var t := ledger.transactions[id];
      if t.body.Transfer? {
        return Err(InvalidTransfer);
      }
      ledger.transactions := ledger.transactions[id := t.(body := Categorized(category))];
      return Ok(());
    }

    method PayRow(id: TransactionId, payeeId: Option<PayeeId>, confirmed: bool) returns (r: Result<(), ServiceError>)
      modifies ledger`transactions
      ensures Outcome(View(ledger), ErrorOf(r)) == Apply(old(View(ledger)), ChangePayee(id, payeeId, confirmed))
      ensures Kept(old(View(ledger)), ChangePayee(id, payeeId, confirmed), View(ledger))
    {
      hide Kept;
      KeepsPairs(View(ledger), ChangePayee(id, payeeId, confirmed));
      var _ :- CheckMutation(id, confirmed);
      ledger.transactions := ledger.transactions[id := ledger.transactions[id].(payeeId := payeeId)];
      return Ok(());
    }

    method MoveRow(id: TransactionId, accountId: AccountId, confirmed: bool) returns (r: Result<(), ServiceError>)
      modifies ledger`transactions
      ensures Outcome(View(ledger), ErrorOf(r)) == Apply(old(View(ledger)), MoveToAccount(id, accountId, confirmed))
      ensures Kept(old(View(ledger)), MoveToAccount(id, accountId, confirmed), View(ledger))
    {
      hide Kept;
      KeepsPairs(View(ledger), MoveToAccount(id, accountId, confirmed));
      var _ :- CheckMutation(id, confirmed);
      if accountId !in ledger.accounts {
        return Err(AccountNotFound);
      }
      if ledger.accounts[accountId].closed && !confirmed {
        return Err(ConfirmationRequired);
      }
      var t := ledger.transactions[id];
      if t.body.Transfer? {
        return Err(InvalidTransfer);
      }
      ledger.transactions := ledger.transactions[id := t.(accountId := accountId)];
      return Ok(());
    }

    /** Restores the ledger from a copy when a step fails. */
    method ApproveBatch(ids: seq<TransactionId>) returns (r: Result<(), ServiceError>)
      modifies ledger`transactions, ledger`audit
      ensures Outcome(View(ledger), ErrorOf(r)) == Apply(old(View(ledger)), BatchApprove(ids))
      ensures Kept(old(View(ledger)), BatchApprove(ids), View(ledger))
    {
      hide Kept, Atomic, ApproveAll;
      KeepsPairs(View(ledger), BatchApprove(ids));
      ghost var start := View(ledger);
      var before := ledger.transactions;
      NothingApproved(start, ids);
      for i := 0 to |ids|
        invariant Done(View(ledger)) == ApproveAll(start, ids[..i])
        invariant ledger.accounts == start.accounts && ledger.audit == start.audit
        invariant ledger.recalculationFrom == start.recalculationFrom
      {
        ApproveStep(start, ids, i);
        var step := ApproveRow(ids[i]);
        if step.Err? {
          FailedBatch(start, ids, false, i + 1);
          BatchOutcome(start, ids, ApproveAll(start, ids));
          ledger.transactions := before;
          return Err(step.error);
        }
      }
      assert ids[..|ids|] == ids;
      BatchOutcome(start, ids, Done(View(ledger)));
      ledger.audit := ledger.audit + ["atomic batch"];
      return Ok(());
    }

    method DeleteBatch(ids: seq<TransactionId>, confirmed: bool) returns (r: Result<(), ServiceError>)
      modifies ledger`transactions, ledger`recalculationFrom, ledger`audit
      ensures Outcome(View(ledger), ErrorOf(r)) == Apply(old(View(ledger)), BatchDelete(ids, confirmed))
      ensures Kept(old(View(ledger)), BatchDelete(ids, confirmed), View(ledger))
    {
      hide Kept;
      KeepsPairs(View(ledger), BatchDelete(ids, confirmed));
      hide ApplyDelete;
      ghost var start := View(ledger);
      var transactions, mark, audit := ledger.transactions, ledger.recalculationFrom, ledger.audit;
      for i := 0 to |ids|
        invariant Done(View(ledger)) == DeleteAll(start, ids[..i], confirmed)
        invariant ledger.accounts == start.accounts
      {
        assert ids[..i + 1][..i] == ids[..i];
        var step := DeleteRow(ids[i], confirmed);
        if step.Err? {
          FailedBatch(start, ids, confirmed, i + 1);
          ledger.transactions, ledger.recalculationFrom, ledger.audit := transactions, mark, audit;
          return Err(step.error);
        }
      }
      assert ids[..|ids|] == ids;
      ledger.audit := ledger.audit + ["atomic batch"];
      return Ok(());
    }

    /** The staged rows with a new transfer in them. */
    method StageTransfer(source: AccountId, destination: AccountId, date: Date, sourceAmount: Money, drawn: Fresh)
      returns (r: Result<Transactions, ServiceError>)
      ensures var created := CreateTransferIn(View(ledger), source, destination, date, sourceAmount, drawn);
              if r.Ok? then created == Done(View(ledger).(transactions := r.value))
              else created == Fail(View(ledger), r.error)
    {
      if source !in ledger.accounts || destination !in ledger.accounts {
        return Err(AccountNotFound);
      }
      var a, b := ledger.accounts[source], ledger.accounts[destination];
      var destinationAmount := CheckedNeg(sourceAmount);
      if destinationAmount.Err? {
        return Err(InvalidTransfer);
      }
      var bodies := TransferBodies(drawn.transfer, a, sourceAmount, b, destinationAmount.value);
      if bodies.Err? {
        return Err(InvalidTransaction(bodies.error));
      }
      var left := Leg(drawn.left, source, a.budgetId, date, sourceAmount, bodies.value.0);
      var right := Leg(drawn.right, destination, b.budgetId, date, destinationAmount.value, bodies.value.1);
      return Ok(ledger.transactions[left.id := left][right.id := right]);
    }

    method NewTransfer(source: AccountId, destination: AccountId, date: Date, sourceAmount: Money, drawn: Fresh)
      returns (r: Result<(TransactionId, TransactionId), ServiceError>)
      modifies ledger`transactions, ledger`recalculationFrom
      ensures Outcome(View(ledger), ErrorOf(r))
           == Apply(old(View(ledger)), CreateTransfer(source, destination, date, sourceAmount, drawn))
      ensures r.Ok? ==> r.value == (drawn.left, drawn.right)
      ensures Kept(old(View(ledger)), CreateTransfer(source, destination, date, sourceAmount, drawn), View(ledger))
    {
      hide Kept;
      KeepsPairs(View(ledger), CreateTransfer(source, destination, date, sourceAmount, drawn));
      hide CreateTransferIn;
      var staged :- StageTransfer(source, destination, date, sourceAmount, drawn);
      ledger.transactions := staged;
      MarkFrom(date);
      return Ok((drawn.left, drawn.right));
    }

    method NewCategorizedTransfer(source: AccountId, destination: AccountId, date: Date, sourceAmount: Money,
                                  category: Option<CategoryId>, effect: Option<AccountId>, memo: Option<string>, drawn: Fresh)
      returns (r: Result<(TransactionId, TransactionId), ServiceError>)
      modifies ledger`transactions, ledger`recalculationFrom, ledger`audit
      ensures Outcome(View(ledger), ErrorOf(r))
           == Apply(old(View(ledger)),
                    CreateCategorizedTransfer(source, destination, date, sourceAmount, category, effect, memo, drawn))
      ensures r.Ok? ==> r.value == (drawn.left, drawn.right)
      ensures Kept(old(View(ledger)),
                   CreateCategorizedTransfer(source, destination, date, sourceAmount, category, effect, memo, drawn),
                   View(ledger))
    {
      hide Kept;
      KeepsPairs(View(ledger), CreateCategorizedTransfer(source, destination, date, sourceAmount, category, effect, memo, drawn));
      var staged :- StageTransfer(source, destination, date, sourceAmount, drawn);
      if effect.Some? && effect.value != source && effect.value != destination {
        return Err(InvalidTransfer);
      }
      staged := staged[drawn.left := Annotated(staged[drawn.left], category, effect, memo)];
      staged := staged[drawn.right := Annotated(staged[drawn.right], category, effect, memo)];
      ledger.transactions := staged;
      MarkFrom(date);
      ledger.audit := ledger.audit + ["atomic categorized transfer create"];
      return Ok((drawn.left, drawn.right));
    }

    method DeleteBoth(id: TransactionId, confirmed: bool)
      returns (r: Result<(), ServiceError>, ghost partner: Option<TransactionId>)
      modifies ledger`transactions, ledger`recalculationFrom
      ensures SearchFound(old(ledger.transactions), id, partner)
      ensures Outcome(View(ledger), ErrorOf(r)) == Apply(old(View(ledger)), DeleteTransferBoth(id, confirmed, partner))
      ensures Kept(old(View(ledger)), DeleteTransferBoth(id, confirmed, partner), View(ledger))
    {
      hide Kept;
      ghost var start := View(ledger);
      forall p: Option<TransactionId>
        ensures Kept(start, DeleteTransferBoth(id, confirmed, p), Apply(start, DeleteTransferBoth(id, confirmed, p)).state)
      {
        KeepsPairs(start, DeleteTransferBoth(id, confirmed, p));
      }
      hide PairCheck;
      var pair;
      pair, partner := CheckPair(id, confirmed);
      if pair.Err? {
        return Err(pair.error), partner;
      }
      var date := Earlier(ledger.transactions[id].date, ledger.transactions[pair.value].date);
      ledger.transactions := ledger.transactions - {id};
      ledger.transactions := ledger.transactions - {pair.value};
      MarkFrom(date);
      return Ok(()), partner;
    }

    method Unlink(id: TransactionId, confirmed: bool)
      returns (r: Result<(), ServiceError>, ghost partner: Option<TransactionId>)
      modifies ledger`transactions
      ensures SearchFound(old(ledger.transactions), id, partner)
      ensures Outcome(View(ledger), ErrorOf(r)) == Apply(old(View(ledger)), UnlinkTransfer(id, confirmed, partner))
      ensures Kept(old(View(ledger)), UnlinkTransfer(id, confirmed, partner), View(ledger))
    {
      hide Kept;
      ghost var start := View(ledger);
      forall p: Option<TransactionId>
        ensures Kept(start, UnlinkTransfer(id, confirmed, p), Apply(start, UnlinkTransfer(id, confirmed, p)).state)
      {
        KeepsPairs(start, UnlinkTransfer(id, confirmed, p));
      }
      hide PairCheck;
      var pair;
      pair, partner := CheckPair(id, confirmed);
      if pair.Err? {
        return Err(pair.error), partner;
      }
      var p := pair.value;
      ledger.transactions := ledger.transactions[id := ledger.transactions[id].(body := OpeningBalance(None))];
      ledger.transactions := ledger.transactions[p := ledger.transactions[p].(body := OpeningBalance(None))];
      return Ok(()), partner;
    }
  }
}
