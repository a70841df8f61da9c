/** Reconciliation sessions as a state machine (`src/service/reconciliation_service.rs`). */
module Reconciliations {
  import opened Wrappers
  import opened Cents
  import opened Calendar
  import opened Entities
  import opened Sums
  import opened Ledgers

  type Rows = map<TransactionId, Transaction>
  type Records = map<ReconciliationId, Reconciliation>

  /** An open session: the record in progress, the rows as read, and the rows ticked off. */
  datatype Session = Session(record: Reconciliation, original: Rows, selected: set<TransactionId>)

  /** The part of the ledger that reconciliation touches, and the one open session. */
  datatype World = World(accounts: map<AccountId, Account>, transactions: Rows, records: Records, session: Option<Session>)

  // ----- What a session computes --------------------------------------------------------------

  predicate Eligible(t: Transaction, account: AccountId, through: Date) {
    t.accountId == account && NotAfter(t.date, through) && t.clearance != Reconciled && t.Contributes()
  }

  function EligibleRows(txs: Rows, account: AccountId, through: Date): Rows {
    map id | id in txs && Eligible(txs[id], account, through) :: txs[id]
  }

  function ClearedIds(rows: Rows): set<TransactionId> {
    set id | id in rows && rows[id].clearance == Cleared
  }

  /** The rows a statement counts: reconciled ones and those ticked off, up to its date. */
  predicate Counted(t: Transaction, account: AccountId, through: Date, ticked: bool) {
    t.accountId == account && NotAfter(t.date, through) && t.Contributes() && (t.clearance == Reconciled || ticked)
  }

  function CountedAmounts(txs: Rows, account: AccountId, through: Date, selected: set<TransactionId>)
    : map<TransactionId, Money>
  {
    map id | id in txs && Counted(txs[id], account, through, id in selected) :: txs[id].amount
  }

  ghost function Calculated(txs: Rows, s: Session): int {
    Total(CountedAmounts(txs, s.record.accountId, s.record.statementDate, s.selected))
  }

  /** What is reconciled in an account through a date. */
  ghost function ReconciledBalance(txs: Rows, account: AccountId, through: Date): int {
    Total(CountedAmounts(txs, account, through, {}))
  }

  /** The record brought up to date with the ledger, unless a checked operation fails. */
  ghost function Recalculated(txs: Rows, s: Session): Option<Session> {
    var balance := Calculated(txs, s);
    if !InRange(balance) || !InRange(s.record.endingBalance - balance) then None
    else
      Some(s.(record := s.record.(calculatedClearedBalance := balance,
                                  difference := s.record.endingBalance - balance,
                                  included := s.selected)))
  }

  function OpeningSession(txs: Rows, account: Account, accountId: AccountId, date: Date, ending: Money, id: ReconciliationId)
    : Session
  {
    var original := EligibleRows(txs, accountId, date);
    Session(Reconciliation(id, account.budgetId, accountId, date, ending, 0, 0, {}, Active), original, ClearedIds(original))
  }

  function Ticked(s: Session, id: TransactionId, cleared: bool): Session {
    s.(selected := if cleared then s.selected + {id} else s.selected - {id})
  }

  function AdjustmentRow(s: Session, budget: BudgetId, account: AccountId, payee: PayeeId, id: TransactionId): Transaction {
    Transaction(id, budget, account, s.record.statementDate, Some(payee), s.record.difference,
                Some("Reconciliation adjustment (Ready to Assign)"), Cleared, Approved, OpeningBalance(None), false, false)
  }

  /** Puts a row into the ledger and the session's copy. */
  function Observed(s: Session, t: Transaction): Session {
    s.(original := s.original[t.id := t])
  }

  // ----- Completion ---------------------------------------------------------------------------

  /** A ticked row is as the session last saw it, on the account and not yet reconciled. */
  predicate Unchanged(txs: Rows, s: Session, id: TransactionId) {
    && id in txs && id in s.original && s.original[id] == txs[id]
    && txs[id].accountId == s.record.accountId && txs[id].clearance != Reconciled
  }

  function MarkedReconciled(txs: Rows, ids: set<TransactionId>): Rows {
    map id | id in txs :: if id in ids then txs[id].(clearance := Reconciled) else txs[id]
  }

  function CompletedRecord(record: Reconciliation, balance: Money, difference: Money): Reconciliation {
    record.(state := Completed, calculatedClearedBalance := balance, difference := difference)
  }

  /** Completion tests the difference it last computed, but stores the one it computes now. */
  ghost predicate CanComplete(txs: Rows, s: Session) {
    && s.record.difference == 0
    && (forall id :: id in s.selected ==> Unchanged(txs, s, id))
    && InRange(Calculated(txs, s)) && InRange(s.record.endingBalance - Calculated(txs, s))
    && s.record.included <= txs.Keys
  }

  // ----- Invalidation -------------------------------------------------------------------------

  predicate Includes(record: Reconciliation, account: AccountId, id: TransactionId) {
    record.accountId == account && id in record.included
  }

  /** A record of the account dated no earlier than some record that includes the row. */
  predicate Affected(records: Records, account: AccountId, id: TransactionId, r: ReconciliationId) {
    && r in records && records[r].accountId == account
    && exists q :: q in records && Includes(records[q], account, id)
                   && NotAfter(records[q].statementDate, records[r].statementDate)
  }

  function Invalidated(records: Records, account: AccountId, id: TransactionId): Records {
    map r | r in records ::
      if Affected(records, account, id, r) then records[r].(state := PotentiallyInvalid) else records[r]
  }

  /** The rows that go when one is deleted: both legs of a transfer. */
  function DeletedIds(txs: Rows, id: TransactionId): set<TransactionId>
    requires id in txs
  {
    if txs[id].body.Transfer? then
      set t | t in txs && txs[t].body.Transfer? && txs[t].body.transferId == txs[id].body.transferId
    else {id}
  }

  predicate AffectedByAny(records: Records, txs: Rows, ids: set<TransactionId>, r: ReconciliationId) {
    exists t :: t in ids && t in txs && Affected(records, txs[t].accountId, t, r)
  }

  function InvalidatedByAll(records: Records, txs: Rows, ids: set<TransactionId>): Records {
    map r | r in records ::
      if AffectedByAny(records, txs, ids, r) then records[r].(state := PotentiallyInvalid) else records[r]
  }

  /** Of an account's records, exactly those from the earliest one including the row onwards. */
  lemma InvalidationIsTheChain(records: Records, account: AccountId, id: TransactionId, earliest: ReconciliationId)
    requires earliest in records && Includes(records[earliest], account, id)
    requires forall q :: q in records && Includes(records[q], account, id) ==>
               NotAfter(records[earliest].statementDate, records[q].statementDate)
    ensures forall r :: r in records ==>
              Invalidated(records, account, id)[r]
              == if records[r].accountId == account && NotAfter(records[earliest].statementDate, records[r].statementDate)
                 then records[r].(state := PotentiallyInvalid) else records[r]
  {
  }

  // ----- Events -------------------------------------------------------------------------------

  /** `Overflowed` is a session operation whose recalculation fails once its own writes are done. */
  datatype Event =
    | StartSession(account: AccountId, date: Date, ending: Money, newId: ReconciliationId)
    | SetCleared(id: TransactionId, cleared: bool)
    | Correct(transaction: Transaction)
    | Adjust(payee: PayeeId, newRow: TransactionId)
    | Overflowed(attempt: Event, balanceStored: bool)
    | Complete
    | EditRow(transaction: Transaction)
    | DeleteRow(id: TransactionId)
    | Abandon

  /** The rows and the session as an operation on the open session leaves them before it recalculates. */
  ghost function Attempted(w: World, e: Event): Option<(Rows, Session)> {
    if w.session.None? then None
    else
      var s := w.session.value;
      match e
      case SetCleared(id, cleared) => if id !in s.original then None else Some((w.transactions, Ticked(s, id, cleared)))
      case Correct(t) =>
        if t.id !in s.original || t.accountId != s.record.accountId || !NotAfter(t.date, s.record.statementDate) then None
        else Some((w.transactions[t.id := t], Observed(s, t)))
      case Adjust(payee, newRow) =>
        if s.record.accountId !in w.accounts || newRow in w.transactions then None
        else
          var a := w.accounts[s.record.accountId];
          var t := AdjustmentRow(s, a.budgetId, s.record.accountId, payee, newRow);
          Some((w.transactions[t.id := t], Ticked(Observed(s, t), t.id, true)))
      case _ => None
  }

  /** A recalculation that fails may have stored the new balance, but nothing after it. */
  ghost function HalfUpdated(txs: Rows, s: Session, balanceStored: bool): Session {
    var balance := Calculated(txs, s);
    if balanceStored && InRange(balance) then s.(record := s.record.(calculatedClearedBalance := balance)) else s
  }

  /** The world after an event; fresh identifiers are new. */
  ghost function Apply(w: World, e: Event): Option<World> {
    match e
    case StartSession(account, date, ending, newId) =>
      if w.session.Some? || account !in w.accounts || newId in w.records then None
      else
        var begun := Recalculated(w.transactions, OpeningSession(w.transactions, w.accounts[account], account, date, ending, newId));
        if begun.None? then None else Some(w.(session := begun))
    case Overflowed(attempt, balanceStored) =>
      (match Attempted(w, attempt)
       case None => None
       case Some((txs, s)) => Some(w.(transactions := txs, session := Some(HalfUpdated(txs, s, balanceStored)))))
    case Complete =>
      if w.session.None? || !CanComplete(w.transactions, w.session.value) then None
      else
        var s := w.session.value;
        var balance := Calculated(w.transactions, s);
        var record := CompletedRecord(s.record, balance, s.record.endingBalance - balance);
        Some(World(w.accounts, MarkedReconciled(w.transactions, record.included), w.records[record.id := record], None))
    case EditRow(t) =>
      if t.id !in w.transactions then None
      else
        var before := w.transactions[t.id];
        Some(w.(transactions := w.transactions[t.id := t], records := Invalidated(w.records, before.accountId, t.id)))
    case DeleteRow(id) =>
      if id !in w.transactions then None
      else
        var ids := DeletedIds(w.transactions, id);
        Some(w.(transactions := w.transactions - ids, records := InvalidatedByAll(w.records, w.transactions, ids)))
    case Abandon => Some(w.(session := None))
    case _ =>
      (match Attempted(w, e)
       case None => None
       case Some((txs, s)) =>
         var next := Recalculated(txs, s);
         if next.None? then None else Some(w.(transactions := txs, session := next)))
  }

  // ----- What every run keeps -----------------------------------------------------------------

  /** All rows of a record are present, on its own account and reconciled. */
  ghost predicate Intact(txs: Rows, record: Reconciliation) {
    forall t :: t in record.included ==>
      t in txs && txs[t].accountId == record.accountId && txs[t].clearance == Reconciled
  }

  ghost predicate CompletedIntact(txs: Rows, records: Records) {
    forall r :: r in records && records[r].state == Completed ==> Intact(txs, records[r])
  }

  /** The rows of an open session, and those its record lists, belong to no completed record. */
  ghost predicate Detached(w: World, s: Session) {
    && s.selected <= s.original.Keys
    && s.record.included <= s.original.Keys
    && s.record.state == Active
    && forall r :: r in w.records && w.records[r].state == Completed ==> w.records[r].included !! s.original.Keys
  }

  ghost predicate Invariant(w: World) {
    && (forall id :: id in w.transactions ==> w.transactions[id].id == id)
    && CompletedIntact(w.transactions, w.records)
    && (w.session.Some? ==> Detached(w, w.session.value))
  }

  /** The last recalculation succeeded: the record lists what is ticked off and shows its difference. */
  predicate Settled(s: Session) {
    && s.record.included == s.selected
    && s.record.difference == s.record.endingBalance - s.record.calculatedClearedBalance
  }

  lemma StartKeeps(w: World, e: Event)
    requires Invariant(w) && e.StartSession? && Apply(w, e).Some?
    ensures Invariant(Apply(w, e).value)
  {
    hide Calculated;
    var s := Apply(w, e).value.session.value;
    forall r | r in w.records && w.records[r].state == Completed
      ensures w.records[r].included !! s.original.Keys
    {
      assert Intact(w.transactions, w.records[r]);
    }
  }

  predicate SessionStep(e: Event) {
    e.SetCleared? || e.Correct? || e.Adjust?
  }

  /** The writes of an operation on the session touch no completed record. */
  lemma AttemptKeeps(w: World, e: Event)
    requires Invariant(w) && Attempted(w, e).Some?
    ensures Invariant(w.(transactions := Attempted(w, e).value.0, session := Some(Attempted(w, e).value.1)))
    ensures Attempted(w, e).value.1.record == w.session.value.record
  {
    var after := w.(transactions := Attempted(w, e).value.0, session := Some(Attempted(w, e).value.1));
    var s := w.session.value;
    forall r | r in w.records && w.records[r].state == Completed
      ensures Intact(after.transactions, w.records[r])
      ensures w.records[r].included !! after.session.value.original.Keys
    {
      assert Intact(w.transactions, w.records[r]);
      assert w.records[r].included !! s.original.Keys;
    }
  }

  lemma SessionStepKeeps(w: World, e: Event)
    requires Invariant(w) && (SessionStep(e) || e.Overflowed?) && Apply(w, e).Some?
    ensures Invariant(Apply(w, e).value)
  {
    hide Calculated, Attempted;
    AttemptKeeps(w, if e.Overflowed? then e.attempt else e);
  }

  /** Every row that completing would mark is on the account of the statement. */
  ghost predicate OnAccount(w: World) {
    w.session.Some? ==>
      forall t :: t in w.session.value.record.included && t in w.transactions ==>
        w.transactions[t].accountId == w.session.value.record.accountId
  }

  /**
   Completing marks the rows the record lists, but checks the rows that are ticked off. It keeps the
   completed records intact if and only if the listed rows are on the account.
   */
  lemma {:induction false} CompletionIntactExactly(w: World)
    requires Invariant(w) && Apply(w, Complete).Some?
    ensures CompletedIntact(Apply(w, Complete).value.transactions, Apply(w, Complete).value.records) <==> OnAccount(w)
    ensures OnAccount(w) ==> Invariant(Apply(w, Complete).value)
  {
    hide Calculated;
    var after := Apply(w, Complete).value;
    var s := w.session.value;
    assert after.records[s.record.id].included == s.record.included && after.records[s.record.id].state == Completed;
    if OnAccount(w) {
      forall r | r in after.records && after.records[r].state == Completed
        ensures Intact(after.transactions, after.records[r])
      {
        if r != s.record.id {
          assert Intact(w.transactions, w.records[r]);
        }
      }
    } else {
      var t :| t in s.record.included && t in w.transactions && w.transactions[t].accountId != s.record.accountId;
      assert after.transactions[t].accountId != after.records[s.record.id].accountId;
      assert !Intact(after.transactions, after.records[s.record.id]);
    }
  }

  /** When the last recalculation succeeded, the listed rows are the ticked ones, which completing checks. */
  lemma SettledIsOnAccount(w: World)
    requires Apply(w, Complete).Some? && Settled(w.session.value)
    ensures OnAccount(w)
  {
    hide Calculated;
    forall t | t in w.session.value.selected
      ensures t in w.transactions && w.transactions[t].accountId == w.session.value.record.accountId
    {
      assert Unchanged(w.transactions, w.session.value, t);
    }
  }

  /** A record that stays completed included none of the rows that went or changed. */
  lemma CompletedIsUntouched(w: World, e: Event, r: ReconciliationId)
    requires Invariant(w) && (e.EditRow? || e.DeleteRow?) && Apply(w, e).Some?
    requires r in w.records && w.records[r].state == Completed
    requires Apply(w, e).value.records[r].state == Completed
    ensures forall t :: t in w.records[r].included ==>
              t in Apply(w, e).value.transactions && Apply(w, e).value.transactions[t] == w.transactions[t]
  {
    var record := w.records[r];
    assert Intact(w.transactions, record);
    forall t | t in record.included
      ensures t in Apply(w, e).value.transactions && Apply(w, e).value.transactions[t] == w.transactions[t]
    {
      assert Includes(record, w.transactions[t].accountId, t);
      assert NotAfter(record.statementDate, record.statementDate);
      assert Affected(w.records, w.transactions[t].accountId, t, r);
    }
  }

  lemma ChangeKeeps(w: World, e: Event)
    requires Invariant(w) && (e.EditRow? || e.DeleteRow?) && Apply(w, e).Some?
    ensures Invariant(Apply(w, e).value)
  {
    var after := Apply(w, e).value;
    forall r | r in after.records && after.records[r].state == Completed
      ensures r in w.records && w.records[r] == after.records[r] && Intact(after.transactions, after.records[r])
    {
      assert w.records[r] == after.records[r];
      assert Intact(w.transactions, w.records[r]);
      CompletedIsUntouched(w, e, r);
    }
    if w.session.Some? {
      assert Detached(after, w.session.value);
    }
  }

  lemma AbandonKeeps(w: World)
    requires Invariant(w)
    ensures Apply(w, Abandon).Some? && Invariant(Apply(w, Abandon).value)
  {
  }

  /** Every event keeps completed reconciliations intact, a completion if its listed rows are on the account. */
  lemma {:induction false} EventKeepsInvariant(w: World, e: Event)
    requires Invariant(w) && Apply(w, e).Some? && (e.Complete? ==> OnAccount(w))
    ensures Invariant(Apply(w, e).value)
  {
    hide Apply;
    match e
    case StartSession(_, _, _, _) => StartKeeps(w, e);
    case Complete => CompletionIntactExactly(w);
    case EditRow(_) => ChangeKeeps(w, e);
    case DeleteRow(_) => ChangeKeeps(w, e);
    case Abandon => AbandonKeeps(w);
    case _ => SessionStepKeeps(w, e);
  }

  ghost function Run(w: World, events: seq<Event>): Option<World>
    decreases |events|
  {
    if events == [] then Some(w)
    else
      var next := Apply(w, events[0]);
      if next.None? then None else Run(next.value, events[1..])
  }

  /** Every completion of the run marks only rows on its account. */
  ghost predicate CompletionsOnAccount(w: World, events: seq<Event>)
    requires Run(w, events).Some?
    decreases |events|
  {
    events == []
    || ((events[0].Complete? ==> OnAccount(w)) && CompletionsOnAccount(Apply(w, events[0]).value, events[1..]))
  }

  /**
   In every run with one open session at a time, overflowing operations included, whose completions
   list only rows on their account: each reconciliation that is still Completed has all its rows
   present, on its own account and Reconciled.
   */
  lemma {:induction false} RunKeepsCompletedIntact(w: World, events: seq<Event>)
    requires Invariant(w) && Run(w, events).Some? && CompletionsOnAccount(w, events)
    ensures Invariant(Run(w, events).value)
    ensures CompletedIntact(Run(w, events).value.transactions, Run(w, events).value.records)
    decreases |events|
  {
    hide Apply, CompletedIntact, Detached, OnAccount;
    if events != [] {
      EventKeepsInvariant(w, events[0]);
      RunKeepsCompletedIntact(Apply(w, events[0]).value, events[1..]);
    }
  }

  /** After an event that does not overflow, an open session has been recalculated with success. */
  lemma {:induction false} StaysSettled(w: World, e: Event)
    requires Apply(w, e).Some? && !e.Overflowed? && (w.session.Some? ==> Settled(w.session.value))
    ensures Apply(w, e).value.session.Some? ==> Settled(Apply(w, e).value.session.value)
  {
    hide Calculated, Attempted;
  }

  lemma CompletionHasSession(w: World)
    requires Apply(w, Complete).Some?
    ensures w.session.Some?
  {
  }

  /** In a run without overflow every completion is such, so completed records stay intact in all of them. */
  lemma {:induction false} RunWithoutOverflow(w: World, events: seq<Event>)
    requires Run(w, events).Some? && (w.session.Some? ==> Settled(w.session.value))
    requires forall i :: 0 <= i < |events| ==> !events[i].Overflowed?
    ensures CompletionsOnAccount(w, events)
    decreases |events|
  {
    hide Apply, Settled, OnAccount;
    if events != [] {
      StaysSettled(w, events[0]);
      if events[0].Complete? {
        CompletionHasSession(w);
        SettledIsOnAccount(w);
      }
      RunWithoutOverflow(Apply(w, events[0]).value, events[1..]);
    }
  }

  // ----- Whether a completed statement balances -----------------------------------------------

  lemma MarkedCountsTheSame(txs: Rows, account: AccountId, through: Date, selected: set<TransactionId>)
    ensures CountedAmounts(MarkedReconciled(txs, selected), account, through, {})
         == CountedAmounts(txs, account, through, selected)
  {
  }

  /**
   After a completion the reconciled rows through the statement date sum to what the record says,
   the ending balance less the stored difference. That is the ending balance itself exactly when
   the ledger still adds up to the balance that the session last computed.
   */
  lemma CompletionBalances(w: World)
    requires Apply(w, Complete).Some? && Settled(w.session.value)
    ensures var s, after := w.session.value, Apply(w, Complete).value;
            var record := after.records[s.record.id];
            && record.state == Completed
            && record.accountId == s.record.accountId && record.statementDate == s.record.statementDate
            && record.endingBalance == s.record.endingBalance
            && ReconciledBalance(after.transactions, record.accountId, record.statementDate)
               == record.calculatedClearedBalance == record.endingBalance - record.difference
            && (ReconciledBalance(after.transactions, record.accountId, record.statementDate) == record.endingBalance
                <==> Calculated(w.transactions, s) == s.record.calculatedClearedBalance)
  {
    var s := w.session.value;
    MarkedCountsTheSame(w.transactions, s.record.accountId, s.record.statementDate, s.selected);
  }

  /** After an operation on the session that succeeds, the session is up to date with the ledger. */
  predicate Recalculates(e: Event) {
    e.StartSession? || SessionStep(e)
  }

  ghost predicate UpToDate(w: World) {
    w.session.Some? && Settled(w.session.value)
    && Calculated(w.transactions, w.session.value) == w.session.value.record.calculatedClearedBalance
  }

  lemma FreshSession(w: World, e: Event)
    requires Recalculates(e) && Apply(w, e).Some?
    ensures UpToDate(Apply(w, e).value)
  {
    hide CountedAmounts, Attempted;
  }

  // ----- Row changes under an open session ----------------------------------------------------

  predicate IsChange(e: Event) {
    e.EditRow? || e.DeleteRow?
  }

  /** What a row adds to the balance of a session. */
  function Weight(t: Transaction, s: Session): int {
    if Counted(t, s.record.accountId, s.record.statementDate, t.id in s.selected) then t.amount else 0
  }

  /** What a set of rows adds to the balance of a session. */
  ghost function WeightOf(txs: Rows, ids: set<TransactionId>, s: Session): int {
    Calculated(Restrict(txs, ids), s)
  }

  /** By how much a row change moves the balance of a session. */
  ghost function NetOf(w: World, e: Event, s: Session): int {
    match e
    case EditRow(t) => if t.id in w.transactions then Weight(t, s) - Weight(w.transactions[t.id], s) else 0
    case DeleteRow(id) =>
      if id in w.transactions then 0 - WeightOf(w.transactions, DeletedIds(w.transactions, id), s) else 0
    case _ => 0
  }

  ghost predicate Keyed(w: World) {
    forall id :: id in w.transactions ==> w.transactions[id].id == id
  }

  lemma TotalWithout(m: map<TransactionId, Money>, id: TransactionId)
    ensures Total(m) == Total(m - {id}) + if id in m then m[id] else 0
  {
    if id in m {
      TotalRemove(m, id);
    } else {
      assert m - {id} == m;
    }
  }

  lemma EditMovesBalance(w: World, t: Transaction, s: Session)
    requires Keyed(w) && t.id in w.transactions
    ensures Calculated(w.transactions[t.id := t], s) == Calculated(w.transactions, s) + NetOf(w, EditRow(t), s)
  {
    var account, date := s.record.accountId, s.record.statementDate;
    var before := CountedAmounts(w.transactions, account, date, s.selected);
    var after := CountedAmounts(w.transactions[t.id := t], account, date, s.selected);
    var others := before - {t.id};
    assert after - {t.id} == others;
    TotalWithout(before, t.id);
    TotalWithout(after, t.id);
  }

  lemma RemovalMovesBalance(txs: Rows, ids: set<TransactionId>, s: Session)
    ensures Calculated(txs - ids, s) == Calculated(txs, s) - WeightOf(txs, ids, s)
  {
    var account, date := s.record.accountId, s.record.statementDate;
    var counted: map<TransactionId, int> := CountedAmounts(txs, account, date, s.selected);
    hide Counted;
    assert CountedAmounts(txs - ids, account, date, s.selected) == counted - ids;
    assert CountedAmounts(Restrict(txs, ids), account, date, s.selected) == Restrict(counted, ids);
    TotalSplit(counted, ids);
  }

  lemma ChangeMovesBalance(w: World, e: Event, s: Session)
    requires Keyed(w) && IsChange(e) && Apply(w, e).Some?
    ensures Calculated(Apply(w, e).value.transactions, s) == Calculated(w.transactions, s) + NetOf(w, e, s)
    ensures Apply(w, e).value.session == w.session && Keyed(Apply(w, e).value)
  {
    hide Calculated, WeightOf, Weight;
    match e
    case EditRow(t) => EditMovesBalance(w, t, s);
    case DeleteRow(id) => RemovalMovesBalance(w.transactions, DeletedIds(w.transactions, id), s);
  }

  /** The net movement of a run of row changes. */
  ghost function NetChange(w: World, events: seq<Event>, s: Session): int
    requires Run(w, events).Some?
    decreases |events|
  {
    if events == [] then 0 else NetOf(w, events[0], s) + NetChange(Apply(w, events[0]).value, events[1..], s)
  }

  lemma {:induction false} RunMovesBalance(w: World, events: seq<Event>, s: Session)
    requires Keyed(w) && Run(w, events).Some? && forall i :: 0 <= i < |events| ==> IsChange(events[i])
    ensures Calculated(Run(w, events).value.transactions, s) == Calculated(w.transactions, s) + NetChange(w, events, s)
    ensures Run(w, events).value.session == w.session
    decreases |events|
  {
    hide Apply, Calculated, NetOf, Keyed;
    if events != [] {
      ChangeMovesBalance(w, events[0], s);
      RunMovesBalance(Apply(w, events[0]).value, events[1..], s);
    }
  }

  /**
   A completion balances exactly when the row changes since the last operation on the session move
   its balance by nothing in all: changes to rows that the session counts, before or after, whether
   reconciled or ticked off.
   */
  lemma {:induction false} CompletionBalancesExactly(w: World, events: seq<Event>)
    requires Keyed(w) && UpToDate(w)
    requires forall i :: 0 <= i < |events| ==> IsChange(events[i])
    requires Run(w, events).Some? && Apply(Run(w, events).value, Complete).Some?
    ensures var s, after := w.session.value, Apply(Run(w, events).value, Complete).value;
            ReconciledBalance(after.transactions, s.record.accountId, s.record.statementDate) == s.record.endingBalance
            <==> NetChange(w, events, s) == 0
  {
    hide Apply, Calculated, ReconciledBalance, NetChange, Run, Settled, Keyed;
    RunMovesBalance(w, events, w.session.value);
    CompletionBalances(Run(w, events).value);
  }

  predicate Counts(t: Transaction, s: Session) {
    Counted(t, s.record.accountId, s.record.statementDate, t.id in s.selected)
  }

  /** A change that touches no row which the session counts, before it or after it. */
  ghost predicate Quiet(w: World, e: Event, s: Session) {
    match e
    case EditRow(t) => !Counts(t, s) && (t.id in w.transactions ==> !Counts(w.transactions[t.id], s))
    case DeleteRow(id) =>
      id in w.transactions ==>
        forall t :: t in DeletedIds(w.transactions, id) && t in w.transactions ==> !Counts(w.transactions[t], s)
    case _ => false
  }

  ghost predicate QuietRun(w: World, events: seq<Event>, s: Session)
    requires Run(w, events).Some?
    decreases |events|
  {
    events == [] || (Quiet(w, events[0], s) && QuietRun(Apply(w, events[0]).value, events[1..], s))
  }

  lemma QuietMovesNothing(w: World, e: Event, s: Session)
    requires Keyed(w) && Quiet(w, e, s)
    ensures IsChange(e) && NetOf(w, e, s) == 0
  {
    if e.DeleteRow? && e.id in w.transactions {
      var ids := DeletedIds(w.transactions, e.id);
      assert CountedAmounts(Restrict(w.transactions, ids), s.record.accountId, s.record.statementDate, s.selected) == map[];
      TotalEmpty<TransactionId>();
    }
  }

  lemma {:induction false} QuietRunMovesNothing(w: World, events: seq<Event>, s: Session)
    requires Keyed(w) && Run(w, events).Some? && QuietRun(w, events, s)
    ensures NetChange(w, events, s) == 0 && forall i :: 0 <= i < |events| ==> IsChange(events[i])
    decreases |events|
  {
    hide Apply, Quiet, NetOf, Keyed;
    if events != [] {
      QuietMovesNothing(w, events[0], s);
      ChangeMovesBalance(w, events[0], s);
      QuietRunMovesNothing(Apply(w, events[0]).value, events[1..], s);
    }
  }

  /** The session that a successful operation leaves open. */
  ghost function SessionAfter(w: World, e: Event): Session
    requires Recalculates(e) && Apply(w, e).Some?
  {
    FreshSession(w, e);
    Apply(w, e).value.session.value
  }

  /**
   With no intervening change to a row that the session counts, completing balances: after any
   operation on the session and any run of changes to other rows, the reconciled rows through the
   statement date sum to the ending balance.
   */
  lemma {:induction false} QuietCompletionBalances(w: World, e: Event, events: seq<Event>)
    requires Invariant(w) && Recalculates(e) && Apply(w, e).Some?
    requires Run(Apply(w, e).value, events).Some?
    requires QuietRun(Apply(w, e).value, events, SessionAfter(w, e))
    requires Apply(Run(Apply(w, e).value, events).value, Complete).Some?
    ensures var s := SessionAfter(w, e);
            var after := Apply(Run(Apply(w, e).value, events).value, Complete).value;
            ReconciledBalance(after.transactions, s.record.accountId, s.record.statementDate) == s.record.endingBalance
  {
    var middle := Apply(w, e).value;
    EventKeepsInvariant(w, e);
    FreshSession(w, e);
    assert Keyed(middle);
    hide Apply, Invariant, UpToDate, QuietRun, NetChange, ReconciledBalance;
    QuietRunMovesNothing(middle, events, SessionAfter(w, e));
    CompletionBalancesExactly(middle, events);
  }

  lemma AdjustmentMovesBalance(txs: Rows, s: Session, t: Transaction)
    requires t.id !in txs && t.accountId == s.record.accountId && t.date == s.record.statementDate && t.Contributes()
    ensures Calculated(txs[t.id := t], Ticked(Observed(s, t), t.id, true)) == Calculated(txs, s) + t.amount
  {
    var before := CountedAmounts(txs, s.record.accountId, s.record.statementDate, s.selected);
    var after := CountedAmounts(txs[t.id := t], s.record.accountId, s.record.statementDate, s.selected + {t.id});
    assert after == before[t.id := t.amount];
    TotalInsert(before, t.id, t.amount);
  }

  /** The adjustment of an up-to-date session closes its difference. */
  lemma AdjustmentClosesDifference(w: World, payee: PayeeId, newRow: TransactionId)
    requires UpToDate(w) && Apply(w, Adjust(payee, newRow)).Some?
    ensures Apply(w, Adjust(payee, newRow)).value.session.value.record.difference == 0
  {
    var s := w.session.value;
    var t := AdjustmentRow(s, w.accounts[s.record.accountId].budgetId, s.record.accountId, payee, newRow);
    hide Calculated;
    AdjustmentMovesBalance(w.transactions, s, t);
  }

  // ----- Completions that do not balance ------------------------------------------------------

  const DAY: Date := CalendarDate(2026, 1, 1)

  function SampleRow(amount: Money, clearance: Clearance): Transaction {
    Transaction(1, 0, 1, DAY, None, amount, None, clearance, Approved, OpeningBalance(None), false, false)
  }

  function SampleWorld(row: Transaction, session: Option<Session>): World {
    World(map[1 := Account(1, 0, None, Checking, false, 0)], map[1 := row], map[], session)
  }

  function SampleSession(row: Transaction, balance: Money, ending: Money): Session
    requires InRange(ending - balance)
  {
    var ids: set<TransactionId> := if row.clearance == Reconciled then {} else {1};
    Session(Reconciliation(7, 0, 1, DAY, ending, balance, ending - balance, ids, Active),
            if row.clearance == Reconciled then map[] else map[1 := row], ids)
  }

  lemma SampleBalance(row: Transaction, s: Session)
    requires s.record.accountId == 1 && s.record.statementDate == DAY
    requires row == SampleRow(row.amount, row.clearance) && (row.clearance == Reconciled || s.selected == {1})
    ensures Calculated(map[1 := row], s) == row.amount
  {
    var counted := CountedAmounts(map[1 := row], 1, DAY, s.selected);
    assert counted == map[1 := row.amount];
    TotalInsert<TransactionId>(map[], 1, row.amount);
    TotalEmpty<TransactionId>();
    assert counted == (map[])[1 := row.amount];
  }

  lemma SampleStart(amount: Money, clearance: Clearance, ending: Money)
    requires clearance != Uncleared && InRange(ending - amount)
    ensures var row := SampleRow(amount, clearance);
            Apply(SampleWorld(row, None), StartSession(1, DAY, ending, 7))
            == Some(SampleWorld(row, Some(SampleSession(row, amount, ending))))
  {
    var row := SampleRow(amount, clearance);
    var w := SampleWorld(row, None);
    var opening := OpeningSession(w.transactions, w.accounts[1], 1, DAY, ending, 7);
    var session := SampleSession(row, amount, ending);
    assert opening.original == session.original;
    assert opening.selected == session.selected;
    SampleBalance(row, opening);
  }

  lemma SampleEdit(from: Transaction, to: Transaction, session: Session)
    requires to.id == 1
    ensures Apply(SampleWorld(from, Some(session)), EditRow(to)) == Some(SampleWorld(to, Some(session)))
  {
    assert (map[1 := from])[1 := to] == map[1 := to];
  }

  lemma SampleCompletion(row: Transaction, s: Session)
    requires row == SampleRow(row.amount, row.clearance) && s.record.difference == 0
    requires s.record.id == 7 && s.record.accountId == 1 && s.record.statementDate == DAY && s.record.included == s.selected
    requires if row.clearance == Reconciled then s.selected == {} else s.selected == {1} && s.original == map[1 := row]
    requires InRange(s.record.endingBalance - row.amount)
    ensures var done := Apply(SampleWorld(row, Some(s)), Complete);
            && done.Some? && 7 in done.value.records
            && done.value.records[7].state == Completed
            && done.value.records[7].difference == s.record.endingBalance - row.amount
            && ReconciledBalance(done.value.transactions, 1, DAY) == row.amount
  {
    var w := SampleWorld(row, Some(s));
    SampleBalance(row, s);
    assert forall id :: id in s.selected ==> Unchanged(w.transactions, s, id);
    MarkedCountsTheSame(w.transactions, 1, DAY, s.selected);
  }

  lemma SampleTick(row: Transaction, s: Session)
    requires row == SampleRow(row.amount, row.clearance) && 1 in s.original && s.selected == {1} && s.record.included == {1}
    requires s.record.accountId == 1 && s.record.statementDate == DAY && InRange(s.record.endingBalance - row.amount)
    ensures Apply(SampleWorld(row, Some(s)), SetCleared(1, true))
         == Some(SampleWorld(row, Some(s.(record := s.record.(calculatedClearedBalance := row.amount,
                                                              difference := s.record.endingBalance - row.amount)))))
  {
    assert Ticked(s, 1, true) == s;
    SampleBalance(row, s);
  }

  lemma UnfoldRun(w: World, first: Event, rest: seq<Event>)
    ensures Run(w, [first] + rest) == if Apply(w, first).None? then None else Run(Apply(w, first).value, rest)
  {
    hide Apply;
    assert ([first] + rest)[1..] == rest;
  }

  lemma SampleInvariant(row: Transaction)
    requires row.id == 1
    ensures Invariant(SampleWorld(row, None))
  {
  }

  /**
   A reconciled row edited while a session is open: the session still shows no difference, the
   completion is accepted, and the stored record is Completed with a difference of ten cents.
   */
  lemma {:induction false} StaleCompletionDoesNotBalance()
    ensures var w := SampleWorld(SampleRow(100, Reconciled), None);
            var final := Run(w, [StartSession(1, DAY, 100, 7), EditRow(SampleRow(90, Reconciled)), Complete]);
            && Invariant(w) && final.Some? && 7 in final.value.records
            && final.value.records[7].state == Completed && final.value.records[7].difference == 10
            && ReconciledBalance(final.value.transactions, 1, DAY) == 90
  {
    var row, edited := SampleRow(100, Reconciled), SampleRow(90, Reconciled);
    var s := SampleSession(row, 100, 100);
    SampleStart(100, Reconciled, 100);
    SampleEdit(row, edited, s);
    SampleCompletion(edited, s);
    SampleInvariant(row);
    hide Apply, ReconciledBalance, Invariant, SampleWorld, SampleSession;
    UnfoldRun(SampleWorld(row, None), StartSession(1, DAY, 100, 7), [EditRow(edited), Complete]);
    UnfoldRun(SampleWorld(row, Some(s)), EditRow(edited), [Complete]);
    UnfoldRun(SampleWorld(edited, Some(s)), Complete, []);
  }

  /**
   The same without any reconciled row: a cleared row of 10 is edited to 20, ticked again, which
   recalculates, and edited back before the completion.
   */
  lemma {:induction false} ClearedEditDoesNotBalance()
    ensures var ten, twenty := SampleRow(10, Cleared), SampleRow(20, Cleared);
            var w := SampleWorld(ten, None);
            var final := Run(w, [StartSession(1, DAY, 20, 7), EditRow(twenty), SetCleared(1, true), EditRow(ten), Complete]);
            && Invariant(w) && final.Some? && 7 in final.value.records
            && final.value.records[7].state == Completed && final.value.records[7].difference == 10
            && ReconciledBalance(final.value.transactions, 1, DAY) == 10
  {
    var ten, twenty := SampleRow(10, Cleared), SampleRow(20, Cleared);
    var s := SampleSession(ten, 10, 20);
    var ticked := s.(record := s.record.(calculatedClearedBalance := 20, difference := 0));
    SampleStart(10, Cleared, 20);
    SampleEdit(ten, twenty, s);
    SampleTick(twenty, s);
    SampleEdit(twenty, ten, ticked);
    SampleCompletion(ten, ticked);
    SampleInvariant(ten);
    hide Apply, ReconciledBalance, Invariant, SampleWorld, SampleSession;
    UnfoldRun(SampleWorld(ten, None), StartSession(1, DAY, 20, 7), [EditRow(twenty), SetCleared(1, true), EditRow(ten), Complete]);
    UnfoldRun(SampleWorld(ten, Some(s)), EditRow(twenty), [SetCleared(1, true), EditRow(ten), Complete]);
    UnfoldRun(SampleWorld(twenty, Some(s)), SetCleared(1, true), [EditRow(ten), Complete]);
    UnfoldRun(SampleWorld(twenty, Some(ticked)), EditRow(ten), [Complete]);
    UnfoldRun(SampleWorld(ten, Some(ticked)), Complete, []);
  }

  // ----- An overflow that leaves a session half updated ---------------------------------------

  function RowOf(id: TransactionId, account: AccountId, amount: Money, clearance: Clearance): Transaction {
    Transaction(id, 0, account, DAY, None, amount, None, clearance, Approved, OpeningBalance(None), false, false)
  }

  function TwoRows(a: Transaction, b: Transaction, session: Option<Session>): World {
    World(map[1 := Account(1, 0, None, Checking, false, 0)], map[1 := a, 2 := b], map[], session)
  }

  /** A session on account 1 through the day whose record lists row 1. */
  function ListingOne(selected: set<TransactionId>, balance: Money): Session {
    Session(Reconciliation(7, 0, 1, DAY, 10, balance, 0, {1}, Active), map[1 := RowOf(1, 1, 10, Cleared)], selected)
  }

  lemma OnlyCounted(txs: Rows, s: Session, id: TransactionId)
    requires id in txs && txs[id].id == id && Counts(txs[id], s)
    requires s.record.accountId == 1 && s.record.statementDate == DAY
    requires forall x :: x in txs && x != id ==> !Counted(txs[x], 1, DAY, x in s.selected)
    ensures Calculated(txs, s) == txs[id].amount
  {
    var counted := CountedAmounts(txs, 1, DAY, s.selected);
    assert counted == map[id := txs[id].amount];
    TotalInsert<TransactionId>(map[], id, txs[id].amount);
    TotalEmpty<TransactionId>();
    assert counted == (map[])[id := txs[id].amount];
  }

  lemma StartListingOne(other: Transaction)
    requires other == RowOf(2, 2, MIN_CENTS, Reconciled)
    ensures Apply(TwoRows(RowOf(1, 1, 10, Cleared), other, None), StartSession(1, DAY, 10, 7))
         == Some(TwoRows(RowOf(1, 1, 10, Cleared), other, Some(ListingOne({1}, 10))))
  {
    var w := TwoRows(RowOf(1, 1, 10, Cleared), other, None);
    var opening := OpeningSession(w.transactions, w.accounts[1], 1, DAY, 10, 7);
    assert opening.original == map[1 := RowOf(1, 1, 10, Cleared)];
    assert opening.selected == {1};
    OnlyCounted(w.transactions, opening, 1);
  }

  /** Taking the tick off overflows the difference: the balance is stored, the list of rows is not. */
  lemma UntickOverflows(other: Transaction)
    requires other == RowOf(2, 1, MIN_CENTS, Reconciled)
    ensures var w := TwoRows(RowOf(1, 1, 10, Cleared), other, Some(ListingOne({1}, 10)));
            && Attempted(w, SetCleared(1, false)).Some?
            && Recalculated(w.transactions, Attempted(w, SetCleared(1, false)).value.1) == None
            && Apply(w, Overflowed(SetCleared(1, false), true))
               == Some(TwoRows(RowOf(1, 1, 10, Cleared), other, Some(ListingOne({}, MIN_CENTS))))
  {
    var w := TwoRows(RowOf(1, 1, 10, Cleared), other, Some(ListingOne({1}, 10)));
    var unticked := Ticked(ListingOne({1}, 10), 1, false);
    assert unticked == ListingOne({}, 10);
    OnlyCounted(w.transactions, unticked, 2);
  }

  lemma EditFirst(a: Transaction, b: Transaction, to: Transaction, s: Session)
    requires to.id == 1
    ensures Apply(TwoRows(a, b, Some(s)), EditRow(to)) == Some(TwoRows(to, b, Some(s)))
  {
    assert (map[1 := a, 2 := b])[1 := to] == map[1 := to, 2 := b];
  }

  lemma EditSecond(a: Transaction, b: Transaction, to: Transaction, s: Session)
    requires to.id == 2
    ensures Apply(TwoRows(a, b, Some(s)), EditRow(to)) == Some(TwoRows(a, to, Some(s)))
  {
    assert (map[1 := a, 2 := b])[2 := to] == map[1 := a, 2 := to];
  }

  lemma CompleteMoved(other: Transaction)
    requires other == RowOf(2, 2, MIN_CENTS, Reconciled)
    ensures var moved := RowOf(1, 2, 10, Cleared);
            var done := Apply(TwoRows(moved, other, Some(ListingOne({}, MIN_CENTS))), Complete);
            && done.Some? && 7 in done.value.records
            && done.value.records[7].state == Completed && done.value.records[7].accountId == 1
            && 1 in done.value.records[7].included
            && done.value.transactions[1].accountId == 2 && done.value.transactions[1].clearance == Reconciled
  {
    var w := TwoRows(RowOf(1, 2, 10, Cleared), other, Some(ListingOne({}, MIN_CENTS)));
    assert CountedAmounts(w.transactions, 1, DAY, {}) == map[];
    TotalEmpty<TransactionId>();
  }

  const ROW := RowOf(1, 1, 10, Cleared)
  const MOVED := RowOf(1, 2, 10, Cleared)
  const ELSEWHERE := RowOf(2, 2, MIN_CENTS, Reconciled)
  const HUGE := RowOf(2, 1, MIN_CENTS, Reconciled)

  lemma {:induction false} RunUntilOverflow()
    ensures Run(TwoRows(ROW, ELSEWHERE, None),
                [StartSession(1, DAY, 10, 7), EditRow(HUGE), Overflowed(SetCleared(1, false), true)])
         == Some(TwoRows(ROW, HUGE, Some(ListingOne({}, MIN_CENTS))))
  {
    StartListingOne(ELSEWHERE);
    EditSecond(ROW, ELSEWHERE, HUGE, ListingOne({1}, 10));
    UntickOverflows(HUGE);
    hide Apply, TwoRows, ListingOne, RowOf;
    UnfoldRun(TwoRows(ROW, ELSEWHERE, None), StartSession(1, DAY, 10, 7), [EditRow(HUGE), Overflowed(SetCleared(1, false), true)]);
    UnfoldRun(TwoRows(ROW, ELSEWHERE, Some(ListingOne({1}, 10))), EditRow(HUGE), [Overflowed(SetCleared(1, false), true)]);
    UnfoldRun(TwoRows(ROW, HUGE, Some(ListingOne({1}, 10))), Overflowed(SetCleared(1, false), true), []);
  }

  lemma {:induction false} RunAfterOverflow()
    ensures Run(TwoRows(ROW, HUGE, Some(ListingOne({}, MIN_CENTS))), [EditRow(MOVED), EditRow(ELSEWHERE), Complete])
         == Apply(TwoRows(MOVED, ELSEWHERE, Some(ListingOne({}, MIN_CENTS))), Complete)
  {
    var half := ListingOne({}, MIN_CENTS);
    EditFirst(ROW, HUGE, MOVED, half);
    EditSecond(MOVED, HUGE, ELSEWHERE, half);
    hide Apply, TwoRows, ListingOne, RowOf;
    UnfoldRun(TwoRows(ROW, HUGE, Some(half)), EditRow(MOVED), [EditRow(ELSEWHERE), Complete]);
    UnfoldRun(TwoRows(MOVED, HUGE, Some(half)), EditRow(ELSEWHERE), [Complete]);
    UnfoldRun(TwoRows(MOVED, ELSEWHERE, Some(half)), Complete, []);
  }

  lemma {:induction false} RunAppend(w: World, first: seq<Event>, second: seq<Event>)
    ensures Run(w, first + second) == if Run(w, first).None? then None else Run(Run(w, first).value, second)
    decreases |first|
  {
    hide Apply;
    if first == [] {
      assert first + second == second;
    } else {
      assert (first + second)[1..] == first[1..] + second;
      if Apply(w, first[0]).Some? {
        RunAppend(Apply(w, first[0]).value, first[1..], second);
      }
    }
  }

  lemma TwoRowsInvariant()
    ensures Invariant(TwoRows(ROW, ELSEWHERE, None))
  {
  }

  /**
   A tick taken off while the difference overflows, the row moved to another account, and the cause
   of the overflow undone: the completion is accepted, and its record on account 1 lists a row of
   account 2, which it marks reconciled.
   */
  lemma {:induction false} OverflowedSessionMixesAccounts()
    ensures Invariant(TwoRows(ROW, ELSEWHERE, None))
    ensures var final := Run(TwoRows(ROW, ELSEWHERE, None),
                             [StartSession(1, DAY, 10, 7), EditRow(HUGE), Overflowed(SetCleared(1, false), true)]
                             + [EditRow(MOVED), EditRow(ELSEWHERE), Complete]);
            final.Some? && !CompletedIntact(final.value.transactions, final.value.records)
  {
    CompleteMoved(ELSEWHERE);
    var done := Apply(TwoRows(MOVED, ELSEWHERE, Some(ListingOne({}, MIN_CENTS))), Complete).value;
    assert !Intact(done.transactions, done.records[7]);
    RunUntilOverflow();
    RunAfterOverflow();
    TwoRowsInvariant();
    hide Apply, Run, Intact, ListingOne, TwoRows, Invariant;
    RunAppend(TwoRows(ROW, ELSEWHERE, None),
              [StartSession(1, DAY, 10, 7), EditRow(HUGE), Overflowed(SetCleared(1, false), true)],
              [EditRow(MOVED), EditRow(ELSEWHERE), Complete]);
  }
}
