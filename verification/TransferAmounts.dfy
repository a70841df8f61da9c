/**
 The amount inside a transfer body, which creating a transfer sets and editing one leaves as it was
 (`src/service/transaction_service.rs`, lines 507-537).
 */
module TransferAmounts {
  import opened Wrappers
  import opened Cents
  import opened Calendar
  import opened Entities
  import opened Ledgers
  import opened Transfers

  /** A transfer body that states the amount of its own row. */
  predicate RowAgrees(t: Transaction) {
    t.body.Transfer? ==> t.body.amount == t.amount
  }

  predicate Agree(txs: Transactions) {
    forall id :: id in txs ==> RowAgrees(txs[id])
  }

  /** An edit of a transfer leg, by either command, to another amount. */
  predicate ChangesAmount(s: State, c: Command) {
    match c
    case Edit(t, _, _) =>
      t.id in s.transactions && s.transactions[t.id].body.Transfer? && t.amount != s.transactions[t.id].amount
    case EditTransfer(id, _, amount, _, _) => id in s.transactions && amount != s.transactions[id].amount
    case _ => false
  }

  lemma EditRewritesBoth(s: State, id: TransactionId, date: Date, amount: Money, confirmed: bool, p: TransactionId)
    requires id in s.transactions && p in s.transactions && id != p
    requires ApplyEditTransfer(s, id, date, amount, confirmed, Some(p)).error.None?
    ensures CheckedNeg(amount).Ok?
    ensures ApplyEditTransfer(s, id, date, amount, confirmed, Some(p)).state.transactions
         == s.transactions[id := WithAmount(s.transactions[id], date, amount, 0 - amount)]
                          [p := WithAmount(s.transactions[p], date, 0 - amount, amount)]
  {
    hide MutationCheck, WithAmount;
  }

  /** Of two agreeing legs, an accepted edit leaves both in agreement exactly when it keeps the amount. */
  lemma {:induction false} EditedLegsAgree(s: State, id: TransactionId, date: Date, amount: Money, confirmed: bool,
                                           p: TransactionId)
    requires Invariant(s) && IsPartner(s.transactions, id, p)
    requires RowAgrees(s.transactions[id]) && RowAgrees(s.transactions[p])
    requires ApplyEditTransfer(s, id, date, amount, confirmed, Some(p)).error.None?
    ensures var after := ApplyEditTransfer(s, id, date, amount, confirmed, Some(p)).state.transactions;
            && after.Keys == s.transactions.Keys
            && (RowAgrees(after[id]) <==> amount == s.transactions[id].amount)
            && (RowAgrees(after[p]) <==> amount == s.transactions[id].amount)
            && forall x :: x in after && x != id && x != p ==> after[x] == s.transactions[x]
  {
    PairSumsToZero(s, id, p);
    EditRewritesBoth(s, id, date, amount, confirmed, p);
    hide Invariant, ApplyEditTransfer;
  }

  lemma {:induction false} EditAgreesExactly(s: State, id: TransactionId, date: Date, amount: Money, confirmed: bool,
                                             partner: Option<TransactionId>)
    requires Invariant(s) && SearchFound(s.transactions, id, partner) && Agree(s.transactions)
    ensures var outcome := ApplyEditTransfer(s, id, date, amount, confirmed, partner);
            Agree(outcome.state.transactions)
            <==> outcome.error.Some? || (id in s.transactions && amount == s.transactions[id].amount)
  {
    if ApplyEditTransfer(s, id, date, amount, confirmed, partner).error.None? {
      EditedLegsAgree(s, id, date, amount, confirmed, partner.value);
      hide ApplyEditTransfer, Invariant, RowAgrees;
      var after := ApplyEditTransfer(s, id, date, amount, confirmed, partner).state.transactions;
      assert id in after;
    }
  }

  lemma {:induction false} BatchAgrees(s: State, ids: seq<TransactionId>, confirmed: bool)
    requires Agree(s.transactions)
    ensures Agree(ApproveAll(s, ids).state.transactions) && Agree(DeleteAll(s, ids, confirmed).state.transactions)
  {
    if ids != [] {
      BatchAgrees(s, ids[..|ids| - 1], confirmed);
    }
  }

  lemma {:induction false} CreateAgrees(s: State, source: AccountId, destination: AccountId, date: Date, amount: Money, ids: Fresh)
    requires Agree(s.transactions)
    ensures Agree(CreateTransferIn(s, source, destination, date, amount, ids).state.transactions)
  {
  }

  lemma CreatedLegs(s: State, source: AccountId, destination: AccountId, date: Date, amount: Money, ids: Fresh)
    ensures var created := CreateTransferIn(s, source, destination, date, amount, ids);
            created.error.None? ==> ids.left in created.state.transactions && ids.right in created.state.transactions
  {
  }

  lemma {:induction false} AnnotatedAgree(s: State, created: Outcome, c: Command)
    requires Agree(s.transactions) && Agree(created.state.transactions) && c.CreateCategorizedTransfer?
    requires created.error.None? ==> c.drawn.left in created.state.transactions && c.drawn.right in created.state.transactions
    ensures Agree(ApplyCategorized(s, created, c).state.transactions)
  {
  }

  lemma UnknownLeg(s: State, id: TransactionId, date: Date, amount: Money, confirmed: bool, partner: Option<TransactionId>)
    ensures id !in s.transactions ==> ApplyEditTransfer(s, id, date, amount, confirmed, partner).error.Some?
  {
  }

  /** The commands that write no transfer leg's amount. */
  lemma {:induction false} OthersAgree(s: State, c: Command)
    requires Legal(s, c) && Agree(s.transactions) && !c.BatchApprove? && !c.BatchDelete?
    requires !c.CreateTransfer? && !c.CreateCategorizedTransfer? && !c.EditTransfer?
    requires c.Edit? ==> c.transaction.id !in s.transactions || !s.transactions[c.transaction.id].body.Transfer?
    ensures Agree(Apply(s, c).state.transactions) && !ChangesAmount(s, c)
  {
  }

  /**
   Every legal command keeps all transfer bodies in agreement with their rows, except exactly the
   accepted edits of a leg to another amount.
   */
  lemma {:induction false} CommandAgreesExactly(s: State, c: Command)
    requires Invariant(s) && Legal(s, c) && Agree(s.transactions)
    ensures Agree(Apply(s, c).state.transactions) <==> Apply(s, c).error.Some? || !ChangesAmount(s, c)
  {
    hide Invariant, ApplyEditTransfer, CreateTransferIn, ApproveAll, DeleteAll, RowAgrees;
    match c
    case Edit(t, confirmed, partner) =>
      if t.id in s.transactions && s.transactions[t.id].body.Transfer? {
        EditAgreesExactly(s, t.id, t.date, t.amount, confirmed, partner);
      } else {
        OthersAgree(s, c);
      }
    case EditTransfer(id, date, amount, confirmed, partner) =>
      EditAgreesExactly(s, id, date, amount, confirmed, partner);
      UnknownLeg(s, id, date, amount, confirmed, partner);
    case BatchApprove(ids) => BatchAgrees(s, ids, false);
    case BatchDelete(ids, confirmed) => BatchAgrees(s, ids, confirmed);
    case CreateTransfer(source, destination, date, amount, ids) => CreateAgrees(s, source, destination, date, amount, ids);
    case CreateCategorizedTransfer(source, destination, date, amount, _, _, _, ids) =>
      CreateAgrees(s, source, destination, date, amount, ids);
      CreatedLegs(s, source, destination, date, amount, ids);
      AnnotatedAgree(s, CreateTransferIn(s, source, destination, date, amount, ids), c);
    case _ => OthersAgree(s, c);
  }

  /** No accepted command of the run edits a leg to another amount. */
  ghost predicate KeepsAmounts(s: State, commands: seq<Command>)
    decreases |commands|
  {
    commands == []
    || ((Apply(s, commands[0]).error.Some? || !ChangesAmount(s, commands[0]))
        && KeepsAmounts(Apply(s, commands[0]).state, commands[1..]))
  }

  /** A run without such an edit leaves every transfer body stating the amount of its row. */
  lemma {:induction false} RunAgrees(s: State, commands: seq<Command>)
    requires Invariant(s) && LegalRun(s, commands) && Agree(s.transactions) && KeepsAmounts(s, commands)
    ensures Agree(Run(s, commands).transactions)
    decreases |commands|
  {
    hide Apply, Legal, Invariant, Agree, ChangesAmount;
    if commands != [] {
      CommandKeepsPairs(s, commands[0]);
      CommandAgreesExactly(s, commands[0]);
      RunAgrees(Apply(s, commands[0]).state, commands[1..]);
    }
  }

  // ----- A transfer whose body is out of date -------------------------------------------------

  const DAY: Date := CalendarDate(2026, 1, 1)

  function TwoAccounts(): State {
    State(map[1 := Account(1, 0, None, Checking, false, 0), 2 := Account(2, 0, None, Savings, false, 0)], map[], None, [])
  }

  const CREATE := CreateTransfer(1, 2, DAY, 100, Fresh(10, 11, 5))
  const EDIT_TO_90 := EditTransfer(10, DAY, 90, false, Some(11))

  /** A leg of the sample transfer with its row amount, the amount in its body and the other leg's. */
  function SampleLeg(id: TransactionId, account: AccountId, otherAccount: AccountId, amount: Money,
                     inBody: Money, other: Money): Transaction
  {
    Leg(id, account, 0, DAY, amount, Transfer(5, 1, 2, inBody, otherAccount, other, None, None))
  }

  function Sample(amount: Money, inBody: Money): Transactions
    requires amount > MIN_CENTS && inBody > MIN_CENTS
  {
    map[10 := SampleLeg(10, 1, 2, amount, inBody, 0 - amount), 11 := SampleLeg(11, 2, 1, 0 - amount, 0 - inBody, amount)]
  }

  lemma SampleCreated()
    ensures Apply(TwoAccounts(), CREATE) == Done(State(TwoAccounts().accounts, Sample(100, 100), Some(DAY), []))
  {
  }

  lemma SampleEdited(s: State)
    requires s.transactions == Sample(100, 100)
    ensures SearchFound(s.transactions, 10, Some(11))
    ensures Apply(s, EDIT_TO_90).error.None? && Apply(s, EDIT_TO_90).state.transactions == Sample(90, 100)
  {
  }

  /** A transfer of 100 edited to 90: the row says 90, its partner names 90, and its body still says 100. */
  lemma {:induction false} EditedBodyIsStale()
    ensures var created := Apply(TwoAccounts(), CREATE).state;
            && Invariant(TwoAccounts()) && LegalRun(TwoAccounts(), [CREATE, EDIT_TO_90])
            && Agree(created.transactions)
            && Apply(created, EDIT_TO_90).error.None?
            && Apply(created, EDIT_TO_90).state.transactions == Sample(90, 100)
            && !Agree(Sample(90, 100))
  {
    SampleCreated();
    var created := Apply(TwoAccounts(), CREATE).state;
    SampleEdited(created);
    assert 10 in Sample(90, 100) && !RowAgrees(Sample(90, 100)[10]);
    hide Apply, Sample;
    assert [CREATE, EDIT_TO_90][1..] == [EDIT_TO_90];
    var none: seq<Command> := [EDIT_TO_90][1..];
    assert none == [];
    assert LegalRun(created, [EDIT_TO_90]);
  }
}
