/** Commands on transactions and paired transfers (`src/service/transaction_service.rs`, lines 221-631). */
module Transfers {
  import opened Wrappers
  import opened Cents
  import opened Calendar
  import opened Entities
  import opened Sums
  import opened Ledgers

  type Transactions = map<TransactionId, Transaction>

  /** The part of the ledger that transaction commands read and write. */
  datatype State = State(
    accounts: map<AccountId, Account>,
    transactions: Transactions,
    recalculationFrom: Option<Date>,
    audit: seq<string>)

  datatype ServiceError =
    | NotFound
    | AccountNotFound
    | ConfirmationRequired
    | InvalidTransaction(error: TransactionError)
    | InvalidTransfer

  /** The fresh identifiers that creating a transfer draws. */
  datatype Fresh = Fresh(left: TransactionId, right: TransactionId, transfer: TransferId)

  /**
   The commands. `partner` is the row that the search of the hash map for the other leg comes
   across first, if it comes across any.
   */
  datatype Command =
    | Add(transaction: Transaction, confirmed: bool)
    | Edit(transaction: Transaction, confirmed: bool, partner: Option<TransactionId>)
    | Delete(id: TransactionId, confirmed: bool)
    | Duplicate(id: TransactionId, newId: TransactionId)
    | Approve(id: TransactionId)
    | SetClearance(id: TransactionId, clearance: Clearance, confirmed: bool)
    | Categorize(id: TransactionId, categoryId: CategoryId, confirmed: bool)
    | ChangePayee(id: TransactionId, payeeId: Option<PayeeId>, confirmed: bool)
    | MoveToAccount(id: TransactionId, accountId: AccountId, confirmed: bool)
    | BatchApprove(ids: seq<TransactionId>)
    | BatchDelete(ids: seq<TransactionId>, confirmed: bool)
    | CreateTransfer(source: AccountId, destination: AccountId, date: Date, sourceAmount: Money, drawn: Fresh)
    | CreateCategorizedTransfer(source: AccountId, destination: AccountId, date: Date, sourceAmount: Money,
                                category: Option<CategoryId>, effect: Option<AccountId>, memo: Option<string>, drawn: Fresh)
    | EditTransfer(id: TransactionId, date: Date, amount: Money, confirmed: bool, partner: Option<TransactionId>)
    | DeleteTransferBoth(id: TransactionId, confirmed: bool, partner: Option<TransactionId>)
    | UnlinkTransfer(id: TransactionId, confirmed: bool, partner: Option<TransactionId>)

  datatype Outcome = Outcome(state: State, error: Option<ServiceError>)

  // ----- The commands as functions of the state -----------------------------------------------

  function Earliest(mark: Option<Date>, date: Date): Option<Date> {
    match mark
    case None => Some(date)
    case Some(earlier) => Some(if NotAfter(earlier, date) then earlier else date)
  }

  function InvalidateFrom(s: State, date: Date): State {
    s.(recalculationFrom := Earliest(s.recalculationFrom, date))
  }

  function Check(s: State, t: Transaction, confirmed: bool): Result<(), ServiceError> {
    if t.accountId !in s.accounts then Err(AccountNotFound)
    else if s.accounts[t.accountId].closed && !confirmed then Err(ConfirmationRequired)
    else match ValidateTransaction(t) case Ok(_) => Ok(()) case Err(e) => Err(InvalidTransaction(e))
  }

  function MutationCheck(s: State, id: TransactionId, confirmed: bool): Result<(), ServiceError> {
    if id !in s.transactions then Err(NotFound)
    else if s.transactions[id].clearance == Reconciled && !confirmed then Err(ConfirmationRequired)
    else Ok(())
  }

  function Write(s: State, t: Transaction): State {
    s.(transactions := s.transactions[t.id := t])
  }

  function Put(s: State, id: TransactionId, t: Transaction): State {
    s.(transactions := s.transactions[id := t])
  }

  function Log(s: State, line: string): State {
    s.(audit := s.audit + [line])
  }

  function Fail(s: State, e: ServiceError): Outcome {
    Outcome(s, Some(e))
  }

  function Done(s: State): Outcome {
    Outcome(s, None)
  }

  function ApplyAdd(s: State, t: Transaction, confirmed: bool): Outcome {
    match Check(s, t, confirmed)
    case Err(e) => Fail(s, e)
    case Ok(_) => Done(Log(Write(InvalidateFrom(s, t.date), t), "add transaction"))
  }

  /** The other leg, or why there is none. */
  function PairOf(s: State, id: TransactionId, partner: Option<TransactionId>): Result<TransactionId, ServiceError> {
    if id !in s.transactions then Err(NotFound)
    else if !s.transactions[id].body.Transfer? || partner.None? then Err(InvalidTransfer)
    else Ok(partner.value)
  }

  /** Both legs' checks; the partner stands for a row that exists. */
  function PairCheck(s: State, id: TransactionId, confirmed: bool, partner: Option<TransactionId>)
    : (r: Result<TransactionId, ServiceError>)
    ensures r.Ok? ==> id in s.transactions && r.value in s.transactions
  {
    var pair :- PairOf(s, id, partner);
    var _ :- MutationCheck(s, id, confirmed);
    var _ :- MutationCheck(s, pair, confirmed);
    Ok(pair)
  }

  function WithAmount(t: Transaction, date: Date, amount: Money, other: Money): Transaction {
    var moved := t.(date := date, amount := amount);
    if t.body.Transfer? then moved.(body := t.body.(otherAmount := other)) else moved
  }

  function Earlier(a: Date, b: Date): Date {
    if NotAfter(a, b) then a else b
  }

  function ApplyEditTransfer(s: State, id: TransactionId, date: Date, amount: Money, confirmed: bool,
                             partner: Option<TransactionId>): Outcome
  {
    match PairCheck(s, id, confirmed, partner)
    case Err(e) => Fail(s, e)
    case Ok(pair) =>
      match CheckedNeg(amount)
      case Err(_) => Fail(s, InvalidTransfer)
      case Ok(opposite) =>
        var first := s.transactions[id := WithAmount(s.transactions[id], date, amount, opposite)];
        var second := first[pair := WithAmount(first[pair], date, opposite, amount)];
        Done(InvalidateFrom(s.(transactions := second), Earlier(s.transactions[id].date, date)))
  }

  function ApplyEdit(s: State, t: Transaction, confirmed: bool, partner: Option<TransactionId>): Outcome {
    match MutationCheck(s, t.id, confirmed)
    case Err(e) => Fail(s, e)
    case Ok(_) =>
      match Check(s, t, confirmed)
      case Err(e) => Fail(s, e)
      case Ok(_) =>
        var existing := s.transactions[t.id];
        if existing.body.Transfer? then ApplyEditTransfer(s, t.id, t.date, t.amount, confirmed, partner)
        else Done(Log(InvalidateFrom(Write(s, t), existing.date), if confirmed then "confirmed edit" else "edit"))
  }

  function ApplyDelete(s: State, id: TransactionId, confirmed: bool): Outcome {
    match MutationCheck(s, id, confirmed)
    case Err(e) => Fail(s, e)
    case Ok(_) =>
      var t := s.transactions[id];
      if t.body.Transfer? then Fail(s, ConfirmationRequired)
      else Done(Log(InvalidateFrom(s.(transactions := s.transactions - {id}), t.date), "delete"))
  }

  function ApplyDuplicate(s: State, id: TransactionId, newId: TransactionId): Outcome {
    if id !in s.transactions then Fail(s, NotFound)
    else
      var t := s.transactions[id].(id := newId, clearance := Uncleared, approval := Unapproved);
      if t.body.Transfer? then Fail(s, InvalidTransfer) else ApplyAdd(s, t, false)
  }

  function ApplyApprove(s: State, id: TransactionId): Outcome {
    if id !in s.transactions then Fail(s, NotFound)
    else Done(Put(s, id, s.transactions[id].(approval := Approved)))
  }

  /** An update of one row that only asks for confirmation of reconciled rows. */
  function Guarded(s: State, id: TransactionId, confirmed: bool, updated: Outcome): Outcome {
    match MutationCheck(s, id, confirmed) case Err(e) => Fail(s, e) case Ok(_) => updated
  }

  function ApplyMove(s: State, id: TransactionId, accountId: AccountId, confirmed: bool): Outcome
    requires id in s.transactions
  {
    if accountId !in s.accounts then Fail(s, AccountNotFound)
    else if s.accounts[accountId].closed && !confirmed then Fail(s, ConfirmationRequired)
    else if s.transactions[id].body.Transfer? then Fail(s, InvalidTransfer)
    else Done(Put(s, id, s.transactions[id].(accountId := accountId)))
  }

  function ApproveAll(s: State, ids: seq<TransactionId>): Outcome {
    if ids == [] then Done(s)
    else
      var before := ApproveAll(s, ids[..|ids| - 1]);
      if before.error.Some? then before else ApplyApprove(before.state, ids[|ids| - 1])
  }

  function DeleteAll(s: State, ids: seq<TransactionId>, confirmed: bool): Outcome {
    if ids == [] then Done(s)
    else
      var before := DeleteAll(s, ids[..|ids| - 1], confirmed);
      if before.error.Some? then before else ApplyDelete(before.state, ids[|ids| - 1], confirmed)
  }

  /** A batch keeps nothing of what it did when one of its steps fails. */
  function Atomic(s: State, result: Outcome): Outcome {
    if result.error.Some? then Outcome(s, result.error) else Done(Log(result.state, "atomic batch"))
  }

  function Leg(id: TransactionId, account: AccountId, budget: BudgetId, date: Date, amount: Money, body: TransactionBody)
    : Transaction
  {
    Transaction(id, budget, account, date, None, amount, None, Uncleared, Approved, body, false, false)
  }

  function CreateTransferIn(s: State, source: AccountId, destination: AccountId, date: Date, sourceAmount: Money, ids: Fresh)
    : Outcome
  {
    if source !in s.accounts || destination !in s.accounts then Fail(s, AccountNotFound)
    else
      var a, b := s.accounts[source], s.accounts[destination];
      match CheckedNeg(sourceAmount)
      case Err(_) => Fail(s, InvalidTransfer)
      case Ok(destinationAmount) =>
        match TransferBodies(ids.transfer, a, sourceAmount, b, destinationAmount)
        case Err(e) => Fail(s, InvalidTransaction(e))
        case Ok(bodies) =>
          var left := Leg(ids.left, source, a.budgetId, date, sourceAmount, bodies.0);
          var right := Leg(ids.right, destination, b.budgetId, date, destinationAmount, bodies.1);
          Done(s.(transactions := s.transactions[left.id := left][right.id := right]))
  }

  function Annotated(t: Transaction, category: Option<CategoryId>, effect: Option<AccountId>, memo: Option<string>)
    : Transaction
  {
    var noted := t.(memo := memo);
    if t.body.Transfer? then noted.(body := t.body.(transferCategory := category, categoryEffectAccount := effect))
    else noted
  }

  function ApplyCategorized(s: State, created: Outcome, c: Command): Outcome
    requires c.CreateCategorizedTransfer?
    requires created.error.None? ==> c.drawn.left in created.state.transactions && c.drawn.right in created.state.transactions
  {
    if created.error.Some? then created
    else if c.effect.Some? && c.effect.value != c.source && c.effect.value != c.destination then Fail(s, InvalidTransfer)
    else
      var txs := created.state.transactions;
      var first := txs[c.drawn.left := Annotated(txs[c.drawn.left], c.category, c.effect, c.memo)];
      var second := first[c.drawn.right := Annotated(first[c.drawn.right], c.category, c.effect, c.memo)];
      Done(Log(InvalidateFrom(created.state.(transactions := second), c.date), "atomic categorized transfer create"))
  }

  function ApplyDeleteBoth(s: State, id: TransactionId, confirmed: bool, partner: Option<TransactionId>): Outcome {
    match PairCheck(s, id, confirmed, partner)
    case Err(e) => Fail(s, e)
    case Ok(pair) =>
      Done(InvalidateFrom(s.(transactions := s.transactions - {id} - {pair}),
                          Earlier(s.transactions[id].date, s.transactions[pair].date)))
  }

  /** Unlinked legs become uncategorised adjustments. */
  function ApplyUnlink(s: State, id: TransactionId, confirmed: bool, partner: Option<TransactionId>): Outcome {
    match PairCheck(s, id, confirmed, partner)
    case Err(e) => Fail(s, e)
    case Ok(pair) =>
      var first := s.transactions[id := s.transactions[id].(body := OpeningBalance(None))];
      Done(s.(transactions := first[pair := first[pair].(body := OpeningBalance(None))]))
  }

  function ApplyRow(s: State, c: Command): Outcome
    requires c.SetClearance? || c.Categorize? || c.ChangePayee? || c.MoveToAccount?
    requires c.id in s.transactions
  {
    var t := s.transactions[c.id];
    if c.SetClearance? then Done(Put(s, c.id, t.(clearance := c.clearance)))
    else if c.Categorize? then
      if t.body.Transfer? then Fail(s, InvalidTransfer) else Done(Put(s, c.id, t.(body := Categorized(c.categoryId))))
    else if c.ChangePayee? then Done(Put(s, c.id, t.(payeeId := c.payeeId)))
    else ApplyMove(s, c.id, c.accountId, c.confirmed)
  }

  function Apply(s: State, c: Command): Outcome {
    match c
    case Add(t, confirmed) => ApplyAdd(s, t, confirmed)
    case Edit(t, confirmed, partner) => ApplyEdit(s, t, confirmed, partner)
    case Delete(id, confirmed) => ApplyDelete(s, id, confirmed)
    case Duplicate(id, newId) => ApplyDuplicate(s, id, newId)
    case Approve(id) => ApplyApprove(s, id)
    case SetClearance(id, _, confirmed) => if id in s.transactions then Guarded(s, id, confirmed, ApplyRow(s, c)) else Fail(s, NotFound)
    case Categorize(id, _, confirmed) => if id in s.transactions then Guarded(s, id, confirmed, ApplyRow(s, c)) else Fail(s, NotFound)
    case ChangePayee(id, _, confirmed) => if id in s.transactions then Guarded(s, id, confirmed, ApplyRow(s, c)) else Fail(s, NotFound)
    case MoveToAccount(id, _, confirmed) => if id in s.transactions then Guarded(s, id, confirmed, ApplyRow(s, c)) else Fail(s, NotFound)
    case BatchApprove(ids) => Atomic(s, ApproveAll(s, ids))
    case BatchDelete(ids, confirmed) => Atomic(s, DeleteAll(s, ids, confirmed))
    case CreateTransfer(source, destination, date, amount, ids) =>
      var created := CreateTransferIn(s, source, destination, date, amount, ids);
      if created.error.Some? then created else Done(InvalidateFrom(created.state, date))
    case CreateCategorizedTransfer(source, destination, date, amount, _, _, _, ids) =>
      ApplyCategorized(s, CreateTransferIn(s, source, destination, date, amount, ids), c)
    case EditTransfer(id, date, amount, confirmed, partner) => ApplyEditTransfer(s, id, date, amount, confirmed, partner)
    case DeleteTransferBoth(id, confirmed, partner) => ApplyDeleteBoth(s, id, confirmed, partner)
    case UnlinkTransfer(id, confirmed, partner) => ApplyUnlink(s, id, confirmed, partner)
  }

  // ----- Pairing ------------------------------------------------------------------------------

  /** `p` is another row of the same transfer. */
  predicate IsPartner(txs: Transactions, id: TransactionId, p: TransactionId) {
    && id in txs && p in txs && p != id
    && txs[id].body.Transfer? && txs[p].body.Transfer?
    && txs[id].body.transferId == txs[p].body.transferId
  }

  /** The two legs mirror each other; each names the other's account and amount. */
  predicate Mirrored(a: Transaction, b: Transaction) {
    && a.body.Transfer? && b.body.Transfer?
    && b.amount == 0 - a.amount
    && a.date == b.date
    && a.body.otherAmount == b.amount && b.body.otherAmount == a.amount
    && a.body.otherAccountId == b.accountId && b.body.otherAccountId == a.accountId
  }

  /** Every transfer row has exactly one partner, and mirrors it. */
  ghost predicate Paired(txs: Transactions) {
    && (forall id :: id in txs ==> txs[id].id == id)
    && (forall id :: id in txs && txs[id].body.Transfer? ==> exists p :: IsPartner(txs, id, p))
    && (forall id, p, q :: IsPartner(txs, id, p) && IsPartner(txs, id, q) ==> p == q)
    && (forall id, p :: IsPartner(txs, id, p) ==> Mirrored(txs[id], txs[p]))
  }

  ghost predicate Invariant(s: State) {
    Paired(s.transactions) && forall id :: id in s.accounts ==> s.accounts[id].id == id
  }

  /** What the search for the other leg may have come across. */
  ghost predicate SearchFound(txs: Transactions, id: TransactionId, partner: Option<TransactionId>) {
    match partner
    case Some(p) => IsPartner(txs, id, p)
    case None => forall p :: !IsPartner(txs, id, p)
  }

  ghost predicate FreshIds(txs: Transactions, ids: Fresh) {
    && ids.left !in txs && ids.right !in txs && ids.left != ids.right
    && forall id :: id in txs && txs[id].body.Transfer? ==> txs[id].body.transferId != ids.transfer
  }

  /**
   Added rows are new and ordinary, an edit turns no ordinary row into a transfer leg, identifiers
   are drawn fresh.
   */
  ghost predicate Legal(s: State, c: Command) {
    match c
    case Add(t, _) => t.id !in s.transactions && !t.body.Transfer?
    case Edit(t, _, partner) =>
      && SearchFound(s.transactions, t.id, partner)
      && (t.id in s.transactions && t.body.Transfer? ==> s.transactions[t.id].body.Transfer?)
    case Duplicate(_, newId) => newId !in s.transactions
    case CreateTransfer(_, _, _, _, ids) => FreshIds(s.transactions, ids)
    case CreateCategorizedTransfer(_, _, _, _, _, _, _, ids) => FreshIds(s.transactions, ids)
    case EditTransfer(id, _, _, _, partner) => SearchFound(s.transactions, id, partner)
    case DeleteTransferBoth(id, _, partner) => SearchFound(s.transactions, id, partner)
    case UnlinkTransfer(id, _, partner) => SearchFound(s.transactions, id, partner)
    case _ => true
  }

  /** A row changed in ways that pairing does not look at. */
  predicate SamePairing(a: Transaction, b: Transaction) {
    a.id == b.id && a.accountId == b.accountId && a.date == b.date && a.amount == b.amount && a.body == b.body
  }

  /** Pairing carries over to rows with the same partners that still mirror each other. */
  lemma PairedFrom(txs: Transactions, after: Transactions)
    requires Paired(txs)
    requires forall id :: id in after ==> after[id].id == id
    requires forall id :: id in after && after[id].body.Transfer? ==> id in txs && txs[id].body.Transfer?
    requires forall a: TransactionId, b: TransactionId :: IsPartner(after, a, b) <==> IsPartner(txs, a, b)
    requires forall a: TransactionId, b: TransactionId :: IsPartner(after, a, b) ==> Mirrored(after[a], after[b])
    ensures Paired(after)
  {
    hide IsPartner, Mirrored;
    forall id | id in after && after[id].body.Transfer?
      ensures exists p :: IsPartner(after, id, p)
    {
      var p :| IsPartner(txs, id, p);
      assert IsPartner(after, id, p);
    }
  }

  lemma PairedFacts(txs: Transactions)
    requires Paired(txs)
    ensures forall id :: id in txs ==> txs[id].id == id
    ensures forall a: TransactionId, b: TransactionId :: IsPartner(txs, a, b) ==> Mirrored(txs[a], txs[b])
  {
    hide IsPartner, Mirrored;
  }

  lemma SamePairingKeeps(txs: Transactions, id: TransactionId, t: Transaction)
    requires Paired(txs) && id in txs && SamePairing(txs[id], t)
    ensures Paired(txs[id := t])
  {
    hide Paired;
    var after := txs[id := t];
    assert forall x :: x in after ==> SamePairing(txs[x], after[x]);
    PairedFacts(txs);
    PairedFrom(txs, after);
  }

  /** Writing an ordinary row where there was none, or an ordinary one. */
  lemma OrdinaryKeeps(txs: Transactions, id: TransactionId, t: Transaction)
    requires Paired(txs) && t.id == id && !t.body.Transfer?
    requires id in txs ==> !txs[id].body.Transfer?
    ensures Paired(txs[id := t])
  {
    hide Paired;
    PairedFacts(txs);
    PairedFrom(txs, txs[id := t]);
  }

  lemma {:induction false} RemoveOrdinaryKeeps(txs: Transactions, id: TransactionId)
    requires Paired(txs) && (id in txs ==> !txs[id].body.Transfer?)
    ensures Paired(txs - {id})
  {
    hide Paired;
    PairedFacts(txs);
    PairedFrom(txs, txs - {id});
  }

  lemma PartnersExist(txs: Transactions)
    ensures forall a: TransactionId, b: TransactionId :: IsPartner(txs, a, b) ==> a in txs && b in txs
  {
  }

  lemma MirrorIsSymmetric(a: Transaction, b: Transaction)
    ensures Mirrored(a, b) <==> Mirrored(b, a)
  {
  }

  lemma InsertedPairs(txs: Transactions, after: Transactions, left: Transaction, right: Transaction)
    requires Paired(txs) && left.id !in txs && right.id !in txs && left.id != right.id
    requires Mirrored(left, right)
    requires after == txs[left.id := left][right.id := right]
    requires forall a: TransactionId, b: TransactionId :: IsPartner(after, a, b) <==>
               IsPartner(txs, a, b) || (a == left.id && b == right.id) || (a == right.id && b == left.id)
    ensures Paired(after)
  {
    PartnersExist(txs);
    hide IsPartner, Mirrored;
    MirrorIsSymmetric(left, right);
    forall id | id in after && after[id].body.Transfer?
      ensures exists p :: IsPartner(after, id, p)
    {
      if id == left.id {
        assert IsPartner(after, id, right.id);
      } else if id == right.id {
        assert IsPartner(after, id, left.id);
      } else {
        var p :| IsPartner(txs, id, p);
        assert IsPartner(after, id, p);
      }
    }
  }

  lemma InsertPairKeeps(txs: Transactions, left: Transaction, right: Transaction)
    requires Paired(txs) && left.id !in txs && right.id !in txs && left.id != right.id
    requires Mirrored(left, right) && left.body.transferId == right.body.transferId
    requires forall id :: id in txs && txs[id].body.Transfer? ==> txs[id].body.transferId != left.body.transferId
    ensures Paired(txs[left.id := left][right.id := right])
  {
    var after := txs[left.id := left][right.id := right];
    forall a: TransactionId, b: TransactionId
      ensures IsPartner(after, a, b) <==>
              IsPartner(txs, a, b) || (a == left.id && b == right.id) || (a == right.id && b == left.id)
    {
    }
    assert IsPartner(after, left.id, right.id) && IsPartner(after, right.id, left.id);
    InsertedPairs(txs, after, left, right);
  }

  lemma RewrittenPartners(txs: Transactions, id: TransactionId, p: TransactionId, a: Transaction, b: Transaction)
    requires IsPartner(txs, id, p) && a.body.Transfer? && b.body.Transfer?
    requires a.body.transferId == b.body.transferId == txs[id].body.transferId
    ensures var after := txs[id := a][p := b];
            forall x: TransactionId, y: TransactionId :: IsPartner(after, x, y) <==> IsPartner(txs, x, y)
    ensures id in txs && p in txs && id != p && txs[id].body.Transfer? && txs[p].body.Transfer?
  {
  }

  lemma PartnerIsSymmetric(txs: Transactions, x: TransactionId, y: TransactionId)
    requires IsPartner(txs, x, y)
    ensures IsPartner(txs, y, x) && x in txs && y in txs && x != y
  {
  }

  lemma {:induction false} RewrittenMirror(txs: Transactions, id: TransactionId, p: TransactionId, a: Transaction, b: Transaction,
                        x: TransactionId, y: TransactionId)
    requires Paired(txs) && IsPartner(txs, id, p) && Mirrored(a, b) && IsPartner(txs, x, y)
    ensures var after := txs[id := a][p := b]; Mirrored(after[x], after[y])
  {
    PartnerIsSymmetric(txs, id, p);
    PartnerIsSymmetric(txs, x, y);
    hide IsPartner, Mirrored;
    MirrorIsSymmetric(a, b);
    if x == id {
      assert y == p;
    } else if x == p {
      assert y == id;
    } else {
      assert y != id && y != p;
      assert Mirrored(txs[x], txs[y]);
    }
  }

  lemma {:induction false} RewritePairKeeps(txs: Transactions, id: TransactionId, p: TransactionId, a: Transaction, b: Transaction)
    requires Paired(txs) && IsPartner(txs, id, p) && a.id == id && b.id == p
    requires Mirrored(a, b)
    requires a.body.transferId == b.body.transferId == txs[id].body.transferId
    ensures Paired(txs[id := a][p := b])
  {
    var after := txs[id := a][p := b];
    RewrittenPartners(txs, id, p, a, b);
    PairedFacts(txs);
    hide Paired, IsPartner, Mirrored;
    assert Paired(txs);
    forall x: TransactionId, y: TransactionId | IsPartner(after, x, y)
      ensures Mirrored(after[x], after[y])
    {
      RewrittenMirror(txs, id, p, a, b, x, y);
    }
    PairedFrom(txs, after);
  }

  /** Dropping both legs, or turning both into ordinary rows. */
  lemma {:induction false} DissolvePairKeeps(txs: Transactions, id: TransactionId, p: TransactionId, after: Transactions)
    requires Paired(txs) && IsPartner(txs, id, p)
    requires forall x :: x in after ==> x in txs && after[x].id == x
    requires forall x :: x in txs && x != id && x != p ==> x in after && after[x] == txs[x]
    requires forall x :: x in after && (x == id || x == p) ==> !after[x].body.Transfer?
    ensures Paired(after)
  {
    assert IsPartner(txs, p, id);
    assert forall x, y :: IsPartner(after, x, y) ==> IsPartner(txs, x, y);
    forall x | x in after && after[x].body.Transfer?
      ensures exists y :: IsPartner(after, x, y)
    {
      var y :| IsPartner(txs, x, y);
      PartnerIsSymmetric(txs, x, y);
      assert y != id && y != p;
      assert IsPartner(after, x, y);
    }
  }

  lemma {:induction false} AddKeeps(s: State, t: Transaction, confirmed: bool)
    requires Invariant(s) && t.id !in s.transactions && !t.body.Transfer?
    ensures Invariant(ApplyAdd(s, t, confirmed).state)
  {
    OrdinaryKeeps(s.transactions, t.id, t);
  }

  lemma {:induction false} DeleteKeeps(s: State, id: TransactionId, confirmed: bool)
    requires Invariant(s)
    ensures Invariant(ApplyDelete(s, id, confirmed).state)
  {
    if id in s.transactions && !s.transactions[id].body.Transfer? {
      RemoveOrdinaryKeeps(s.transactions, id);
    }
  }

  lemma {:induction false} ApproveKeeps(s: State, id: TransactionId)
    requires Invariant(s)
    ensures Invariant(ApplyApprove(s, id).state)
  {
    if id in s.transactions {
      SamePairingKeeps(s.transactions, id, s.transactions[id].(approval := Approved));
    }
  }

  lemma {:induction false} BatchKeeps(s: State, ids: seq<TransactionId>, confirmed: bool)
    requires Invariant(s)
    ensures Invariant(ApproveAll(s, ids).state) && Invariant(DeleteAll(s, ids, confirmed).state)
  {
    hide Invariant, ApplyApprove, ApplyDelete;
    if ids != [] {
      BatchKeeps(s, ids[..|ids| - 1], confirmed);
      ApproveKeeps(ApproveAll(s, ids[..|ids| - 1]).state, ids[|ids| - 1]);
      DeleteKeeps(DeleteAll(s, ids[..|ids| - 1], confirmed).state, ids[|ids| - 1], confirmed);
    }
  }

  lemma {:induction false} RowKeeps(s: State, c: Command)
    requires Invariant(s) && (c.SetClearance? || c.Categorize? || c.ChangePayee? || c.MoveToAccount?)
    requires c.id in s.transactions
    ensures Invariant(ApplyRow(s, c).state)
  {
    var t := s.transactions[c.id];
    if c.SetClearance? {
      SamePairingKeeps(s.transactions, c.id, t.(clearance := c.clearance));
    } else if c.ChangePayee? {
      SamePairingKeeps(s.transactions, c.id, t.(payeeId := c.payeeId));
    } else if c.Categorize? && !t.body.Transfer? {
      OrdinaryKeeps(s.transactions, c.id, t.(body := Categorized(c.categoryId)));
    } else if c.MoveToAccount? && !t.body.Transfer? {
      OrdinaryKeeps(s.transactions, c.id, t.(accountId := c.accountId));
    }
  }

  lemma CreateKeeps(s: State, source: AccountId, destination: AccountId, date: Date, amount: Money, ids: Fresh)
    requires Invariant(s) && FreshIds(s.transactions, ids)
    ensures var r := CreateTransferIn(s, source, destination, date, amount, ids);
            && Invariant(r.state)
            && (r.error.None? ==>
                  && IsPartner(r.state.transactions, ids.left, ids.right)
                  && r.state.transactions[ids.left].amount == amount
                  && r.state.transactions[ids.left].accountId == source
                  && r.state.transactions[ids.right].accountId == destination)
  {
    var r := CreateTransferIn(s, source, destination, date, amount, ids);
    if r.error.None? {
      var txs := r.state.transactions;
      InsertPairKeeps(s.transactions, txs[ids.left], txs[ids.right]);
    }
  }

  lemma {:induction false} AnnotateKeeps(txs: Transactions, c: Command)
    requires c.CreateCategorizedTransfer? && Paired(txs) && IsPartner(txs, c.drawn.left, c.drawn.right)
    ensures var first := txs[c.drawn.left := Annotated(txs[c.drawn.left], c.category, c.effect, c.memo)];
            Paired(first[c.drawn.right := Annotated(first[c.drawn.right], c.category, c.effect, c.memo)])
  {
    RewritePairKeeps(txs, c.drawn.left, c.drawn.right,
                     Annotated(txs[c.drawn.left], c.category, c.effect, c.memo),
                     Annotated(txs[c.drawn.right], c.category, c.effect, c.memo));
  }

  lemma {:induction false} EditTransferKeeps(s: State, id: TransactionId, date: Date, amount: Money, confirmed: bool,
                          partner: Option<TransactionId>)
    requires Invariant(s) && SearchFound(s.transactions, id, partner)
    ensures Invariant(ApplyEditTransfer(s, id, date, amount, confirmed, partner).state)
  {
    hide Paired;
    if PairCheck(s, id, confirmed, partner).Ok? && CheckedNeg(amount).Ok? {
      var p, txs := partner.value, s.transactions;
      PairedFacts(txs);
      assert Mirrored(txs[id], txs[p]);
      RewritePairKeeps(txs, id, p, WithAmount(txs[id], date, amount, 0 - amount), WithAmount(txs[p], date, 0 - amount, amount));
    }
  }

  lemma {:induction false} DissolveKeeps(s: State, id: TransactionId, confirmed: bool, partner: Option<TransactionId>)
    requires Invariant(s) && SearchFound(s.transactions, id, partner)
    ensures Invariant(ApplyDeleteBoth(s, id, confirmed, partner).state)
    ensures Invariant(ApplyUnlink(s, id, confirmed, partner).state)
  {
    hide Paired;
    PairedFacts(s.transactions);
    if PairCheck(s, id, confirmed, partner).Ok? {
      var p, txs := partner.value, s.transactions;
      DissolvePairKeeps(txs, id, p, txs - {id} - {p});
      DissolvePairKeeps(txs, id, p, ApplyUnlink(s, id, confirmed, partner).state.transactions);
    }
  }

  /** Every legal command, failed ones included, keeps all transfers paired. */
  lemma {:induction false} CommandKeepsPairs(s: State, c: Command)
    requires Invariant(s) && Legal(s, c)
    ensures Invariant(Apply(s, c).state)
  {
    hide Paired;
    match c
    case Add(t, confirmed) => AddKeeps(s, t, confirmed);
    case Edit(t, confirmed, partner) =>
      if t.id in s.transactions {
        if s.transactions[t.id].body.Transfer? {
          EditTransferKeeps(s, t.id, t.date, t.amount, confirmed, partner);
        } else {
          OrdinaryKeeps(s.transactions, t.id, t);
        }
      }
    case Delete(id, confirmed) => DeleteKeeps(s, id, confirmed);
    case Duplicate(id, newId) =>
      if id in s.transactions && !s.transactions[id].body.Transfer? {
        AddKeeps(s, s.transactions[id].(id := newId, clearance := Uncleared, approval := Unapproved), false);
      }
    case Approve(id) => ApproveKeeps(s, id);
    case BatchApprove(ids) => BatchKeeps(s, ids, false);
    case BatchDelete(ids, confirmed) => BatchKeeps(s, ids, confirmed);
    case CreateTransfer(source, destination, date, amount, ids) => CreateKeeps(s, source, destination, date, amount, ids);
    case CreateCategorizedTransfer(source, destination, date, amount, _, _, _, ids) =>
      CreateKeeps(s, source, destination, date, amount, ids);
      var created := CreateTransferIn(s, source, destination, date, amount, ids);
      if created.error.None? {
        AnnotateKeeps(created.state.transactions, c);
      }
    case EditTransfer(id, date, amount, confirmed, partner) => EditTransferKeeps(s, id, date, amount, confirmed, partner);
    case DeleteTransferBoth(id, confirmed, partner) => DissolveKeeps(s, id, confirmed, partner);
    case UnlinkTransfer(id, confirmed, partner) => DissolveKeeps(s, id, confirmed, partner);
    case _ =>
      if c.id in s.transactions {
        RowKeeps(s, c);
      }
  }

  ghost function Run(s: State, commands: seq<Command>): State
    decreases |commands|
  {
    if commands == [] then s else Run(Apply(s, commands[0]).state, commands[1..])
  }

  ghost predicate LegalRun(s: State, commands: seq<Command>)
    decreases |commands|
  {
    commands == [] || (Legal(s, commands[0]) && LegalRun(Apply(s, commands[0]).state, commands[1..]))
  }

  /** After every run, each transfer row has exactly one partner and mirrors it. */
  lemma {:induction false} RunKeepsPairs(s: State, commands: seq<Command>)
    requires Invariant(s) && LegalRun(s, commands)
    ensures Invariant(Run(s, commands))
    decreases |commands|
  {
    hide Apply, Legal, Invariant;
    if commands != [] {
      CommandKeepsPairs(s, commands[0]);
      RunKeepsPairs(Apply(s, commands[0]).state, commands[1..]);
    }
  }

  /** A transfer leg written into a paired ledger has no partner, or makes a third leg. */
  lemma LoneLeg(txs: Transactions, t: Transaction)
    requires Paired(txs) && t.body.Transfer? && (t.id in txs ==> !txs[t.id].body.Transfer?)
    ensures !Paired(txs[t.id := t])
  {
    var after := txs[t.id := t];
    if Paired(after) {
      var p :| IsPartner(after, t.id, p);
      var q :| IsPartner(txs, p, q);
      assert IsPartner(after, p, q) && IsPartner(after, p, t.id);
      assert false;
    }
  }

  /** Adding a new row that is accepted keeps the pairing exactly when the row is no transfer leg. */
  lemma {:induction false} AddKeepsPairsExactly(s: State, t: Transaction, confirmed: bool)
    requires Invariant(s) && t.id !in s.transactions && ApplyAdd(s, t, confirmed).error.None?
    ensures Paired(ApplyAdd(s, t, confirmed).state.transactions) <==> !t.body.Transfer?
  {
    if t.body.Transfer? {
      LoneLeg(s.transactions, t);
    } else {
      AddKeeps(s, t, confirmed);
    }
  }

  /**
   An accepted edit keeps the pairing exactly when the stored row is a transfer leg, of which only
   date and amount are edited, or the new body is none.
   */
  lemma {:induction false} EditKeepsPairsExactly(s: State, t: Transaction, confirmed: bool, partner: Option<TransactionId>)
    requires Invariant(s) && SearchFound(s.transactions, t.id, partner)
    requires ApplyEdit(s, t, confirmed, partner).error.None?
    ensures t.id in s.transactions
    ensures Paired(ApplyEdit(s, t, confirmed, partner).state.transactions)
       <==> s.transactions[t.id].body.Transfer? || !t.body.Transfer?
  {
    if s.transactions[t.id].body.Transfer? {
      EditTransferKeeps(s, t.id, t.date, t.amount, confirmed, partner);
    } else if t.body.Transfer? {
      LoneLeg(s.transactions, t);
    } else {
      OrdinaryKeeps(s.transactions, t.id, t);
    }
  }

  // ----- The grand total ----------------------------------------------------------------------

  /** The amount of every row, whatever its state. */
  function Amounts(txs: Transactions): map<TransactionId, int> {
    map id | id in txs :: txs[id].amount
  }

  ghost function GrandTotal(txs: Transactions): int {
    Total(Amounts(txs))
  }

  lemma InsertTotal(txs: Transactions, t: Transaction)
    requires t.id !in txs
    ensures GrandTotal(txs[t.id := t]) == GrandTotal(txs) + t.amount
  {
    TotalInsert(Amounts(txs), t.id, t.amount);
    assert Amounts(txs[t.id := t]) == Amounts(txs)[t.id := t.amount];
  }

  lemma ReplaceTotal(txs: Transactions, id: TransactionId, t: Transaction)
    requires id in txs
    ensures GrandTotal(txs[id := t]) == GrandTotal(txs) - txs[id].amount + t.amount
  {
    TotalReplace(Amounts(txs), id, t.amount);
    assert Amounts(txs[id := t]) == Amounts(txs)[id := t.amount];
  }

  lemma RemoveTotal(txs: Transactions, id: TransactionId)
    requires id in txs
    ensures GrandTotal(txs - {id}) == GrandTotal(txs) - txs[id].amount
  {
    TotalRemove(Amounts(txs), id);
    assert Amounts(txs - {id}) == Amounts(txs) - {id};
  }

  predicate TransferCommand(c: Command) {
    c.CreateTransfer? || c.CreateCategorizedTransfer? || c.EditTransfer? || c.DeleteTransferBoth? || c.UnlinkTransfer?
  }

  lemma CreateTotal(s: State, source: AccountId, destination: AccountId, date: Date, amount: Money, ids: Fresh)
    requires FreshIds(s.transactions, ids)
    ensures GrandTotal(CreateTransferIn(s, source, destination, date, amount, ids).state.transactions)
         == GrandTotal(s.transactions)
  {
    var r := CreateTransferIn(s, source, destination, date, amount, ids);
    if r.error.None? {
      var left, right := r.state.transactions[ids.left], r.state.transactions[ids.right];
      InsertTotal(s.transactions, left);
      InsertTotal(s.transactions[left.id := left], right);
    }
  }

  lemma RewriteTotal(txs: Transactions, id: TransactionId, p: TransactionId, a: Transaction, b: Transaction)
    requires id in txs && p in txs && id != p && a.amount + b.amount == txs[id].amount + txs[p].amount
    ensures GrandTotal(txs[id := a][p := b]) == GrandTotal(txs)
  {
    ReplaceTotal(txs, id, a);
    ReplaceTotal(txs[id := a], p, b);
  }

  lemma {:induction false} PairSumsToZero(s: State, id: TransactionId, p: TransactionId)
    requires Invariant(s) && IsPartner(s.transactions, id, p)
    ensures s.transactions[id].amount + s.transactions[p].amount == 0
  {
    assert Mirrored(s.transactions[id], s.transactions[p]);
  }

  /** No transfer operation changes the grand total of the ledger, whether it succeeds or fails. */
  lemma {:induction false} TransfersConserveTotal(s: State, c: Command)
    requires Invariant(s) && Legal(s, c) && TransferCommand(c)
    ensures GrandTotal(Apply(s, c).state.transactions) == GrandTotal(s.transactions)
  {
    hide GrandTotal, Invariant;
    var txs := s.transactions;
    match c
    case CreateTransfer(source, destination, date, amount, ids) => CreateTotal(s, source, destination, date, amount, ids);
    case CreateCategorizedTransfer(source, destination, date, amount, category, effect, memo, ids) =>
      CreateTotal(s, source, destination, date, amount, ids);
      var created := CreateTransferIn(s, source, destination, date, amount, ids);
      if created.error.None? {
        var made := created.state.transactions;
        RewriteTotal(made, ids.left, ids.right,
                     Annotated(made[ids.left], category, effect, memo), Annotated(made[ids.right], category, effect, memo));
      }
    case EditTransfer(id, date, amount, confirmed, partner) =>
      if PairCheck(s, id, confirmed, partner).Ok? && CheckedNeg(amount).Ok? {
        var p := partner.value;
        PairSumsToZero(s, id, p);
        RewriteTotal(txs, id, p, WithAmount(txs[id], date, amount, 0 - amount), WithAmount(txs[p], date, 0 - amount, amount));
      }
    case DeleteTransferBoth(id, confirmed, partner) =>
      if PairCheck(s, id, confirmed, partner).Ok? {
        var p := partner.value;
        PairSumsToZero(s, id, p);
        RemoveTotal(txs, id);
        RemoveTotal(txs - {id}, p);
      }
    case UnlinkTransfer(id, confirmed, partner) =>
      if PairCheck(s, id, confirmed, partner).Ok? {
        var p := partner.value;
        RewriteTotal(txs, id, p, txs[id].(body := OpeningBalance(None)), txs[p].(body := OpeningBalance(None)));
      }
  }
}
