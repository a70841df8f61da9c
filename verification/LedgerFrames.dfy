/** Balances, registers and closed accounts written out (`src/calculation/balances.rs`; `src/service/account_service.rs`, lines 172-235). */
module LedgerFrames {
  import opened Wrappers
  import opened Cents
  import opened Calendar
  import opened Entities
  import opened Sums
  import opened Balances
  import opened RunningBalances
  import opened AccountClosing
  import opened TransactionFrames
  import Transfers

  // ----- Balances -----------------------------------------------------------------------------

  /** The amounts of the rows with one of the given clearances that are neither archived nor voided. */
  function AmountsOf(rows: Rows, clearances: set<Clearance>): map<TransactionId, Money> {
    map id | id in rows && !rows[id].archived && !rows[id].voided && rows[id].clearance in clearances :: rows[id].amount
  }

  lemma AnyClearance(c: Clearance)
    ensures c == Uncleared || c == Cleared || c == Reconciled
  {
  }

  /** The four balances by what their rows are. */
  lemma BalancesWrittenOut(rows: Rows)
    ensures Balance(rows, WorkingKind) == Total(AmountsOf(rows, {Uncleared, Cleared, Reconciled}))
    ensures Balance(rows, UnclearedKind) == Total(AmountsOf(rows, {Uncleared}))
    ensures Balance(rows, ClearedKind) == Total(AmountsOf(rows, {Cleared, Reconciled}))
    ensures Balance(rows, ReconciledKind) == Total(AmountsOf(rows, {Reconciled}))
  {
    forall id | id in rows ensures rows[id].clearance in {Uncleared, Cleared, Reconciled} {
      AnyClearance(rows[id].clearance);
    }
    assert Part(rows, rows.Keys, WorkingKind) == AmountsOf(rows, {Uncleared, Cleared, Reconciled});
    assert Part(rows, rows.Keys, UnclearedKind) == AmountsOf(rows, {Uncleared});
    assert Part(rows, rows.Keys, ClearedKind) == AmountsOf(rows, {Cleared, Reconciled});
    assert Part(rows, rows.Keys, ReconciledKind) == AmountsOf(rows, {Reconciled});
  }

  /** The contributing rows of earlier dates than a row's, and of its date up to its identifier. */
  function AmountsUpTo(rows: Rows, id: TransactionId): map<TransactionId, Money>
    requires id in rows
  {
    map x | x in rows && !rows[x].archived && !rows[x].voided
            && (Before(rows[x].date, rows[id].date) || (rows[x].date == rows[id].date && x <= id)) :: rows[x].amount
  }

  lemma DatesTotal(a: Date, b: Date)
    ensures Before(a, b) || a == b || Before(b, a)
    ensures !(Before(a, b) && Before(b, a)) && !Before(a, a)
  {
  }

  /** What the register shows beside a row. */
  lemma RegisterWrittenOut(rows: Rows, id: TransactionId)
    requires id in rows
    ensures BalanceAt(rows, id) == Total(AmountsUpTo(rows, id))
  {
    forall x | x in rows
      ensures !Earlier(rows, id, x) <==> Before(rows[x].date, rows[id].date) || (rows[x].date == rows[id].date && x <= id)
    {
      DatesTotal(rows[x].date, rows[id].date);
    }
    assert Part(rows, UpTo(rows, id), WorkingKind) == AmountsUpTo(rows, id);
  }

  // ----- Closing ------------------------------------------------------------------------------

  function HeldAmounts(txs: Rows, account: AccountId): map<TransactionId, Money> {
    map id | id in txs && txs[id].accountId == account && !txs[id].archived && !txs[id].voided :: txs[id].amount
  }

  /** What an account holds: its rows that are neither archived nor voided. */
  lemma HoldingWrittenOut(txs: Rows, account: AccountId)
    ensures WorkingBalance(txs, account) == Total(HeldAmounts(txs, account))
  {
    var rows := RowsOf(txs, account);
    assert Part(rows, rows.Keys, WorkingKind) == HeldAmounts(txs, account);
  }

  /** The row that an explicit adjustment adds. */
  predicate IsClosingRow(t: Transaction, id: TransactionId, account: AccountId, budget: BudgetId, date: Date, amount: int) {
    && t.id == id && t.accountId == account && t.budgetId == budget && t.date == date && t.amount == amount
    && t.payeeId == None && t.memo == Some("Closing balance adjustment") && t.clearance == Cleared && t.approval == Approved
    && t.body == OpeningBalance(None) && !t.archived && !t.voided
  }

  lemma CreatedLegs(s: Transfers.State, source: AccountId, destination: AccountId, date: Date, amount: Money, drawn: Transfers.Fresh)
    requires drawn.left != drawn.right && InRange(0 - amount)
    ensures var r := Transfers.CreateTransferIn(s, source, destination, date, amount, drawn);
            && (r.error.None? <==> Joinable(s, source, destination))
            && (r.error.None? ==>
                  && r.state == s.(transactions := r.state.transactions)
                  && NewLegs(s, r.state.transactions, source, destination, date, amount, drawn))
  {
  }

  /**
   Closing with a balance: it needs no resolution when the balance is zero, and otherwise one that
   can take the opposite amount. It marks the account closed, adds the one row or the two legs that
   resolve the balance, and writes nothing else.
   */
  lemma {:induction false} CloseWrites(s: Transfers.State, account: AccountId, balance: Money,
                                       resolution: Option<BalanceResolution>, date: Date, drawn: Transfers.Fresh)
    requires drawn.left != drawn.right
    ensures var r := CloseWith(s, account, balance, resolution, date, drawn);
            && (r.Ok? <==>
                  && account in s.accounts
                  && (balance != 0 ==>
                        && resolution.Some? && InRange(0 - balance)
                        && (resolution.value.TransferTo? ==> Joinable(s, account, resolution.value.other))))
            && (r == Err(BalanceResolutionRequired) <==> balance != 0 && resolution.None?)
            && (r.Ok? ==>
                  && account in r.value.accounts
                  && r.value == s.(transactions := r.value.transactions,
                                   accounts := s.accounts[account := s.accounts[account].(closed := true)])
                  && (balance == 0 ==> r.value.transactions == s.transactions)
                  && (balance != 0 && resolution.value.ExplicitAdjustment? ==>
                        && drawn.left in r.value.transactions
                        && var t := r.value.transactions[drawn.left];
                           && r.value.transactions == s.transactions[drawn.left := t]
                           && IsClosingRow(t, drawn.left, account, s.accounts[account].budgetId, date, 0 - balance))
                  && (balance != 0 && resolution.value.TransferTo? ==>
                        InRange(0 - balance)
                        && NewLegs(s, r.value.transactions, account, resolution.value.other, date, 0 - balance, drawn)))
  {
    if balance != 0 && resolution.Some? && resolution.value.TransferTo? && InRange(0 - balance) {
      var other := resolution.value.other;
      CreatedLegs(s, account, other, date, 0 - balance, drawn);
      hide Transfers.CreateTransferIn, NewLegs, Joinable;
    }
  }
}
