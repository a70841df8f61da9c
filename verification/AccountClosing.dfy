/** Closing an account with its balance resolved (`src/service/account_service.rs`, lines 172-235). */
module AccountClosing {
  import opened Wrappers
  import opened Cents
  import opened Calendar
  import opened Entities
  import opened Sums
  import opened Ledgers
  import opened Balances
  import Transfers
  import TransactionServices

  datatype BalanceResolution = TransferTo(other: AccountId) | ExplicitAdjustment

  datatype CloseError = AccountMissing | BalanceResolutionRequired | InvalidResolution | CloseOverflow

  function RowsOf(txs: Rows, account: AccountId): Rows {
    map id | id in txs && txs[id].accountId == account :: txs[id]
  }

  /** What the account holds in all its contributing rows. */
  ghost function WorkingBalance(txs: Rows, account: AccountId): int {
    Balance(RowsOf(txs, account), WorkingKind)
  }

  function Adjustment(id: TransactionId, a: Account, account: AccountId, date: Date, amount: Money): Transaction {
    Transaction(id, a.budgetId, account, date, None, amount, Some("Closing balance adjustment"),
                Cleared, Approved, OpeningBalance(None), false, false)
  }

  /** The staged ledger with the balance resolved, before the account is marked closed. */
  function Resolve(s: Transfers.State, account: AccountId, balance: Money, resolution: BalanceResolution,
                   date: Date, drawn: Transfers.Fresh): Result<Transfers.State, CloseError>
  {
    match CheckedNeg(balance)
    case Err(_) => Err(CloseOverflow)
    case Ok(amount) =>
      match resolution
      case ExplicitAdjustment =>
        if account !in s.accounts then Err(AccountMissing)
        else
          var t := Adjustment(drawn.left, s.accounts[account], account, date, amount);
          Ok(s.(transactions := s.transactions[t.id := t]))
      case TransferTo(other) =>
        var created := Transfers.CreateTransferIn(s, account, other, date, amount, drawn);
        if created.error.Some? then Err(InvalidResolution) else Ok(created.state)
  }

  /** Closing when the working balance is `balance`. */
  function CloseWith(s: Transfers.State, account: AccountId, balance: Money, resolution: Option<BalanceResolution>,
                     date: Date, drawn: Transfers.Fresh): Result<Transfers.State, CloseError>
  {
    if balance != 0 && resolution.None? then Err(BalanceResolutionRequired)
    else
      var resolved :- if balance == 0 then Ok(s) else Resolve(s, account, balance, resolution.value, date, drawn);
      if account !in resolved.accounts then Err(AccountMissing)
      else Ok(resolved.(accounts := resolved.accounts[account := resolved.accounts[account].(closed := true)]))
  }

  // ----- What closing leaves behind -----------------------------------------------------------

  lemma WorkingAfterInsert(txs: Rows, t: Transaction, account: AccountId)
    requires t.id !in txs && t.Contributes()
    ensures WorkingBalance(txs[t.id := t], account)
         == WorkingBalance(txs, account) + if t.accountId == account then t.amount else 0
  {
    var before, after := RowsOf(txs, account), RowsOf(txs[t.id := t], account);
    if t.accountId == account {
      assert after == before[t.id := t];
      TotalInsert(Part(before, before.Keys, WorkingKind), t.id, t.amount);
      assert Part(after, after.Keys, WorkingKind) == Part(before, before.Keys, WorkingKind)[t.id := t.amount];
    } else {
      assert after == before;
    }
  }

  /**
   A successful close leaves the account closed with a working balance of zero. Resolved by a
   transfer, the whole balance arrives in the other account and no third account changes.
   */
  lemma ClosedAccountIsEmpty(s: Transfers.State, account: AccountId, resolution: Option<BalanceResolution>,
                             date: Date, drawn: Transfers.Fresh, other: AccountId)
    requires Transfers.FreshIds(s.transactions, drawn)
    requires MIN_CENTS <= WorkingBalance(s.transactions, account) <= MAX_CENTS
    requires CloseWith(s, account, WorkingBalance(s.transactions, account), resolution, date, drawn).Ok?
    ensures var balance := WorkingBalance(s.transactions, account);
            var after := CloseWith(s, account, balance, resolution, date, drawn).value;
            && after.accounts[account].closed
            && WorkingBalance(after.transactions, account) == 0
            && (other != account ==>
                  WorkingBalance(after.transactions, other)
                  == WorkingBalance(s.transactions, other)
                     + if balance != 0 && resolution == Some(TransferTo(other)) then balance else 0)
  {
    hide WorkingBalance, RowsOf;
    var balance := WorkingBalance(s.transactions, account);
    if balance != 0 {
      match resolution.value
      case ExplicitAdjustment =>
        var t := Adjustment(drawn.left, s.accounts[account], account, date, 0 - balance);
        WorkingAfterInsert(s.transactions, t, account);
        WorkingAfterInsert(s.transactions, t, other);
      case TransferTo(target) =>
        var created := Transfers.CreateTransferIn(s, account, target, date, 0 - balance, drawn);
        var left, right := created.state.transactions[drawn.left], created.state.transactions[drawn.right];
        var middle := s.transactions[left.id := left];
        assert created.state.transactions == middle[right.id := right];
        WorkingAfterInsert(s.transactions, left, account);
        WorkingAfterInsert(middle, right, account);
        WorkingAfterInsert(s.transactions, left, other);
        WorkingAfterInsert(middle, right, other);
    }
  }

  /** Closing keeps every transfer paired. */
  lemma ClosingKeepsPairs(s: Transfers.State, account: AccountId, balance: Money,
                          resolution: Option<BalanceResolution>, date: Date, drawn: Transfers.Fresh)
    requires Transfers.Invariant(s) && Transfers.FreshIds(s.transactions, drawn)
    requires CloseWith(s, account, balance, resolution, date, drawn).Ok?
    ensures Transfers.Invariant(CloseWith(s, account, balance, resolution, date, drawn).value)
  {
    hide Transfers.Paired;
    if balance != 0 {
      match resolution.value
      case ExplicitAdjustment =>
        Transfers.OrdinaryKeeps(s.transactions, drawn.left, Adjustment(drawn.left, s.accounts[account], account, date, 0 - balance));
      case TransferTo(target) => Transfers.CreateKeeps(s, account, target, date, 0 - balance, drawn);
    }
  }

  // ----- The service --------------------------------------------------------------------------

  class AccountCloser {
    const ledger: Ledger

    constructor (ledger: Ledger)
      ensures this.ledger == ledger
    {
      this.ledger := ledger;
    }

    /** Stages every write on copies; the last two assignments commit. */
    method Close(account: AccountId, resolution: Option<BalanceResolution>, date: Date, drawn: Transfers.Fresh)
      returns (r: Result<(), CloseError>)
      modifies ledger`accounts, ledger`transactions
      ensures var before := old(TransactionServices.View(ledger));
              var rows := RowsOf(before.transactions, account);
              && (r.Err? ==> TransactionServices.View(ledger) == before)
              && (NeverOverflows(rows) || r != Err(CloseOverflow) ==>
                    && MIN_CENTS <= WorkingBalance(before.transactions, account) <= MAX_CENTS
                    && var closed := CloseWith(before, account, WorkingBalance(before.transactions, account), resolution, date, drawn);
                       if closed.Ok? then r == Ok(()) && TransactionServices.View(ledger) == closed.value
                       else r == Err(closed.error))
      ensures var before := old(TransactionServices.View(ledger));
              Transfers.Invariant(before) && Transfers.FreshIds(before.transactions, drawn) ==>
                Transfers.Invariant(TransactionServices.View(ledger))
    {
      hide Transfers.Invariant, Transfers.FreshIds;
      ghost var before := TransactionServices.View(ledger);
      var derived := Derive(RowsOf(ledger.transactions, account));
      if derived.Err? {
        return Err(CloseOverflow);
      }
      var balance := derived.value.working;
      if balance != 0 && resolution.None? {
        return Err(BalanceResolutionRequired);
      }
      var accounts, transactions := ledger.accounts, ledger.transactions;
      if balance != 0 {
        var amount := CheckedNeg(balance);
        if amount.Err? {
          return Err(CloseOverflow);
        }
        match resolution.value
        case ExplicitAdjustment =>
          if account !in accounts {
            return Err(AccountMissing);
          }
          var t := Adjustment(drawn.left, accounts[account], account, date, amount.value);
          transactions := transactions[t.id := t];
        case TransferTo(other) =>
          var service := new TransactionServices.TransactionService(ledger);
          var staged := service.StageTransfer(account, other, date, amount.value, drawn);
          if staged.Err? {
            return Err(InvalidResolution);
          }
          transactions := staged.value;
      }
      if account !in accounts {
        return Err(AccountMissing);
      }
      accounts := accounts[account := accounts[account].(closed := true)];
      if Transfers.Invariant(before) && Transfers.FreshIds(before.transactions, drawn) {
        ClosingKeepsPairs(before, account, balance, resolution, date, drawn);
      }
      ledger.accounts, ledger.transactions := accounts, transactions;
      return Ok(());
    }
  }
}
