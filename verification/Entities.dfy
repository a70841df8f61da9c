/** The ledger's records (`src/domain/transaction.rs`, `src/domain/account.rs`, `src/domain/reconciliation.rs`). */
module Entities {
  import opened Wrappers
  import opened Cents
  import opened Calendar

  // Every identifier is a random UUID in the program; here it is a number that callers draw fresh.
  type AccountId = nat
  type AccountGroupId = nat
  type BudgetId = nat
  type CategoryId = nat
  type PayeeId = nat
  type ReconciliationId = nat
  type ScheduleId = nat
  type TransactionId = nat
  type TransferId = nat

  predicate DistinctIds(ids: seq<CategoryId>) {
    forall i, j :: 0 <= i < j < |ids| ==> ids[i] != ids[j]
  }

  datatype Clearance = Uncleared | Cleared | Reconciled

  datatype Approval = Unapproved | Approved

  datatype Subtransaction = Subtransaction(categoryId: CategoryId, amount: Money, memo: Option<string>)

  datatype TransactionBody =
    | OpeningBalance(category: Option<CategoryId>)
    | Categorized(categoryId: CategoryId)
    | Split(lines: seq<Subtransaction>)
    | Transfer(
        transferId: TransferId,
        sourceAccountId: AccountId,
        destinationAccountId: AccountId,
        amount: Money,
        otherAccountId: AccountId,
        otherAmount: Money,
        transferCategory: Option<CategoryId>,
        categoryEffectAccount: Option<AccountId>)

  datatype Transaction = Transaction(
    id: TransactionId,
    budgetId: BudgetId,
    accountId: AccountId,
    date: Date,
    payeeId: Option<PayeeId>,
    amount: Money,
    memo: Option<string>,
    clearance: Clearance,
    approval: Approval,
    body: TransactionBody,
    archived: bool,
    voided: bool)
  {
    /** Whether balances count the row; an archived or voided one is kept for its history only. */
    predicate Contributes() {
      !archived && !voided
    }
  }

  datatype AccountType = Checking | Savings | Cash | CreditCard | Loan | Asset | Liability

  datatype Account = Account(
    id: AccountId,
    budgetId: BudgetId,
    groupId: Option<AccountGroupId>,
    accountType: AccountType,
    closed: bool,
    sortOrder: int)

  datatype AccountGroup = AccountGroup(
    id: AccountGroupId,
    budgetId: BudgetId,
    parentGroupId: Option<AccountGroupId>,
    name: string,
    sortOrder: int)
}
