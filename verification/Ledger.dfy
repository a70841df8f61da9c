/**
 The in-memory ledger that the services share (`src/service/account_service.rs`, lines 5-27) and the
 rules of transaction bodies (`src/domain/transaction.rs`, lines 45-208).
 */
module Ledgers {
  import opened Wrappers
  import opened Cents
  import opened Calendar
  import opened Entities

  datatype TransactionError =
    | TooFewSplitLines
    | SplitOverflow
    | SplitTotalMismatch
    | SameAccount
    | DifferentBudgets
    | TransferAmounts
    | InvalidCategoryEffectAccount

  datatype ReconciliationState = Active | Completed | PotentiallyInvalid

  datatype Reconciliation = Reconciliation(
    id: ReconciliationId,
    budgetId: BudgetId,
    accountId: AccountId,
    statementDate: Date,
    endingBalance: Money,
    calculatedClearedBalance: Money,
    difference: Money,
    included: set<TransactionId>,
    state: ReconciliationState)

  /** One line of the history of invalidated reconciliations; `after` is absent for a deletion. */
  datatype ReconciliationChange = ReconciliationChange(
    reconciliationId: ReconciliationId,
    transactionId: TransactionId,
    before: Transaction,
    after: Option<Transaction>)

  class Ledger {
    var accounts: map<AccountId, Account>
    var transactions: map<TransactionId, Transaction>
    var reconciliations: map<ReconciliationId, Reconciliation>
    var reconciliationChanges: seq<ReconciliationChange>
    var audit: seq<string>
    var accountGroups: map<AccountGroupId, AccountGroup>
    var recalculationFrom: Option<Date>

    constructor ()
      ensures accounts == map[] && transactions == map[] && reconciliations == map[]
      ensures reconciliationChanges == [] && audit == [] && accountGroups == map[] && recalculationFrom == None
    {
      accounts, transactions, reconciliations := map[], map[], map[];
      reconciliationChanges, audit, accountGroups, recalculationFrom := [], [], map[], None;
    }
  }

  // ----- Splits -------------------------------------------------------------------------------

  function ExactSum(lines: seq<Subtransaction>): int {
    if lines == [] then 0 else ExactSum(lines[..|lines| - 1]) + lines[|lines| - 1].amount
  }

  function CheckedSum(lines: seq<Subtransaction>): Result<Money, TransactionError> {
    if lines == [] then Ok(0)
    else
      var before :- CheckedSum(lines[..|lines| - 1]);
      match CheckedAdd(before, lines[|lines| - 1].amount) case Ok(v) => Ok(v) case Err(_) => Err(SplitOverflow)
  }

  function SplitBody(parent: Money, lines: seq<Subtransaction>): Result<TransactionBody, TransactionError> {
    if |lines| < 2 then Err(TooFewSplitLines)
    else
      var total :- CheckedSum(lines);
      if total != parent then Err(SplitTotalMismatch) else Ok(Split(lines))
  }

  function ValidateTransaction(t: Transaction): Result<(), TransactionError> {
    match t.body
    case Split(lines) => (var _ :- SplitBody(t.amount, lines); Ok(()))
    case _ => Ok(())
  }

  /** The parent amount less every line, from the first line on. */
  function SplitRemaining(parent: Money, lines: seq<Subtransaction>): Result<Money, TransactionError> {
    if lines == [] then Ok(parent)
    else
      var before :- SplitRemaining(parent, lines[..|lines| - 1]);
      match CheckedSub(before, lines[|lines| - 1].amount) case Ok(v) => Ok(v) case Err(_) => Err(SplitOverflow)
  }

  lemma {:induction false} SumsAreExact(parent: Money, lines: seq<Subtransaction>)
    ensures CheckedSum(lines).Ok? ==> CheckedSum(lines).value == ExactSum(lines)
    ensures SplitRemaining(parent, lines).Ok? ==> SplitRemaining(parent, lines).value == parent - ExactSum(lines)
  {
    if lines != [] {
      SumsAreExact(parent, lines[..|lines| - 1]);
    }
  }

  lemma {:induction false} OnlySplitOverflow(parent: Money, lines: seq<Subtransaction>)
    requires SplitRemaining(parent, lines).Err?
    ensures SplitRemaining(parent, lines).error == SplitOverflow
  {
    if SplitRemaining(parent, lines[..|lines| - 1]).Err? {
      OnlySplitOverflow(parent, lines[..|lines| - 1]);
    }
  }

  /** Gives the whole remainder to the last line, in place. */
  method DistributeRemainder(parent: Money, lines: array<Subtransaction>) returns (r: Result<(), TransactionError>)
    modifies lines
    ensures r.Ok? ==> lines.Length > 0 && ExactSum(lines[..]) == parent
    ensures r.Ok? ==> forall i :: 0 <= i < lines.Length - 1 ==> lines[i] == old(lines[i])
    ensures r.Ok? ==> lines[lines.Length - 1].(amount := 0) == old(lines[lines.Length - 1]).(amount := 0)
    ensures r.Err? ==> lines[..] == old(lines[..])
    ensures r == Err(TooFewSplitLines) <==> lines.Length == 0
  {
    if lines.Length == 0 {
      return Err(TooFewSplitLines);
    }
    SumsAreExact(parent, lines[..]);
    var remainder := SplitRemaining(parent, lines[..]);
    if remainder.Err? {
      OnlySplitOverflow(parent, lines[..]);
      return Err(remainder.error);
    }
    var last := lines.Length - 1;
    var amount := CheckedAdd(lines[last].amount, remainder.value);
    if amount.Err? {
      return Err(SplitOverflow);
    }
    ghost var before := lines[..];
    lines[last] := lines[last].(amount := amount.value);
    assert lines[..][..last] == before[..last];
    return Ok(());
  }

  /** Lines whose exact sum is the parent can only fail validation by an overflow on the way. */
  lemma DistributedLinesValidate(parent: Money, lines: seq<Subtransaction>)
    requires ExactSum(lines) == parent && |lines| >= 2
    ensures SplitBody(parent, lines) == if CheckedSum(lines).Ok? then Ok(Split(lines)) else Err(CheckedSum(lines).error)
  {
    SumsAreExact(parent, lines);
  }

  // ----- Transfers ----------------------------------------------------------------------------

  function TransferBodies(transferId: TransferId, source: Account, sourceAmount: Money,
                          destination: Account, destinationAmount: Money)
    : Result<(TransactionBody, TransactionBody), TransactionError>
  {
    if source.id == destination.id then Err(SameAccount)
    else if source.budgetId != destination.budgetId then Err(DifferentBudgets)
    else if CheckedNeg(sourceAmount) != Ok(destinationAmount) then Err(TransferAmounts)
    else
      Ok((Transfer(transferId, source.id, destination.id, sourceAmount, destination.id, destinationAmount, None, None),
          Transfer(transferId, source.id, destination.id, destinationAmount, source.id, sourceAmount, None, None)))
  }
}
