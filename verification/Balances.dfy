/** Balances derived from transactions (`src/calculation/balances.rs`). */
module Balances {
  import opened Wrappers
  import opened Cents
  import opened Calendar
  import opened Entities
  import opened Sums
  import CheckedSums

  type Rows = map<TransactionId, Transaction>

  datatype AccountBalances = AccountBalances(cleared: Money, uncleared: Money, working: Money, reconciled: Money)

  datatype Kind = WorkingKind | UnclearedKind | ClearedKind | ReconciledKind

  /** Which contributing rows a balance adds up; reconciled rows count as cleared too. */
  predicate Counts(kind: Kind, t: Transaction) {
    t.Contributes() &&
    match kind
    case WorkingKind => true
    case UnclearedKind => t.clearance == Uncleared
    case ClearedKind => t.clearance == Cleared || t.clearance == Reconciled
    case ReconciledKind => t.clearance == Reconciled
  }

  function Part(rows: Rows, visited: set<TransactionId>, kind: Kind): map<TransactionId, Money> {
    map id | id in visited && id in rows && Counts(kind, rows[id]) :: rows[id].amount
  }

  /** The exact balance of a kind, over all rows. */
  ghost function Balance(rows: Rows, kind: Kind): int {
    Total(Part(rows, rows.Keys, kind))
  }

  /** The sizes of the contributing rows among those visited. */
  function SizesOf(rows: Rows, visited: set<TransactionId>): map<TransactionId, int> {
    CheckedSums.Sizes(Part(rows, visited, WorkingKind))
  }

  /** The rows are small enough that no order of adding them can overflow. */
  ghost predicate NeverOverflows(rows: Rows) {
    CheckedSums.NeverOverflows(Part(rows, rows.Keys, WorkingKind))
  }

  lemma PartGrows(rows: Rows, visited: set<TransactionId>, id: TransactionId, kind: Kind)
    requires id in rows && id !in visited
    ensures Total(Part(rows, visited + {id}, kind))
         == Total(Part(rows, visited, kind)) + if Counts(kind, rows[id]) then rows[id].amount else 0
  {
    hide Counts;
    if Counts(kind, rows[id]) {
      TotalInsert(Part(rows, visited, kind), id, rows[id].amount);
      assert Part(rows, visited + {id}, kind) == Part(rows, visited, kind)[id := rows[id].amount];
    } else {
      assert Part(rows, visited + {id}, kind) == Part(rows, visited, kind);
    }
  }

  lemma SizesGrowByOne(rows: Rows, visited: set<TransactionId>, id: TransactionId)
    requires id in rows && id !in visited
    ensures Total(SizesOf(rows, visited + {id}))
         == Total(SizesOf(rows, visited)) + if rows[id].Contributes() then Magnitude(rows[id].amount) else 0
  {
    if rows[id].Contributes() {
      TotalInsert(SizesOf(rows, visited), id, Magnitude(rows[id].amount));
      assert SizesOf(rows, visited + {id}) == SizesOf(rows, visited)[id := Magnitude(rows[id].amount)];
    } else {
      assert SizesOf(rows, visited + {id}) == SizesOf(rows, visited);
    }
  }

  lemma NothingVisited(rows: Rows, kind: Kind)
    ensures Total(Part(rows, {}, kind)) == 0 && Total(SizesOf(rows, {})) == 0
  {
    assert Part(rows, {}, kind) == map[] && SizesOf(rows, {}) == map[];
    TotalEmpty<TransactionId>();
  }

  lemma {:induction false} SizesBound(rows: Rows, visited: set<TransactionId>, kind: Kind)
    requires visited <= rows.Keys
    ensures Magnitude(Total(Part(rows, visited, kind))) <= Total(SizesOf(rows, visited))
    decreases |visited|
  {
    if visited == {} {
      NothingVisited(rows, kind);
    } else {
      var id :| id in visited;
      SizesBound(rows, visited - {id}, kind);
      PartGrows(rows, visited - {id}, id, kind);
      SizesGrowByOne(rows, visited - {id}, id);
      assert visited - {id} + {id} == visited;
    }
  }

  lemma {:induction false} SizesGrow(rows: Rows, visited: set<TransactionId>, more: set<TransactionId>)
    requires visited <= rows.Keys && more <= rows.Keys && visited !! more
    ensures Total(SizesOf(rows, visited)) <= Total(SizesOf(rows, visited + more))
    decreases |more|
  {
    if more == {} {
      assert visited + more == visited;
    } else {
      var id :| id in more;
      SizesGrow(rows, visited, more - {id});
      SizesGrowByOne(rows, visited + (more - {id}), id);
      assert visited + (more - {id}) + {id} == visited + more;
    }
  }

  /** A sum of some of the rows stays in range when all of them are small enough. */
  lemma PartInRange(rows: Rows, visited: set<TransactionId>, kind: Kind)
    requires visited <= rows.Keys && NeverOverflows(rows)
    ensures MIN_CENTS <= Total(Part(rows, visited, kind)) <= MAX_CENTS
  {
    SizesBound(rows, visited, kind);
    SizesGrow(rows, visited, rows.Keys - visited);
    assert visited + (rows.Keys - visited) == rows.Keys;
  }

  /** The balances with one more row, checked step by step. */
  function AddRow(b: AccountBalances, t: Transaction): (r: Result<AccountBalances, MoneyError>)
    ensures r.Err? ==> r.error == Overflow
    ensures r.Ok? ==>
              && r.value.working == b.working + (if Counts(WorkingKind, t) then t.amount else 0)
              && r.value.uncleared == b.uncleared + (if Counts(UnclearedKind, t) then t.amount else 0)
              && r.value.cleared == b.cleared + (if Counts(ClearedKind, t) then t.amount else 0)
              && r.value.reconciled == b.reconciled + (if Counts(ReconciledKind, t) then t.amount else 0)
    ensures r.Err? ==>
              || (Counts(WorkingKind, t) && !InRange(b.working + t.amount))
              || (Counts(UnclearedKind, t) && !InRange(b.uncleared + t.amount))
              || (Counts(ClearedKind, t) && !InRange(b.cleared + t.amount))
              || (Counts(ReconciledKind, t) && !InRange(b.reconciled + t.amount))
  {
    if !t.Contributes() then Ok(b)
    else
      var working :- CheckedAdd(b.working, t.amount);
      match t.clearance
      case Uncleared =>
        var uncleared :- CheckedAdd(b.uncleared, t.amount);
        Ok(b.(working := working, uncleared := uncleared))
      case Cleared =>
        var cleared :- CheckedAdd(b.cleared, t.amount);
        Ok(b.(working := working, cleared := cleared))
      case Reconciled =>
        var cleared :- CheckedAdd(b.cleared, t.amount);
        var reconciled :- CheckedAdd(b.reconciled, t.amount);
        Ok(b.(working := working, cleared := cleared, reconciled := reconciled))
  }

  lemma Visit(rows: Rows, visited: set<TransactionId>, id: TransactionId)
    requires id in rows && id !in visited && visited <= rows.Keys
    ensures forall kind :: Total(Part(rows, visited + {id}, kind))
                        == Total(Part(rows, visited, kind)) + if Counts(kind, rows[id]) then rows[id].amount else 0
    ensures NeverOverflows(rows) ==>
              forall kind :: MIN_CENTS <= Total(Part(rows, visited + {id}, kind)) <= MAX_CENTS
  {
    forall kind
      ensures Total(Part(rows, visited + {id}, kind))
           == Total(Part(rows, visited, kind)) + if Counts(kind, rows[id]) then rows[id].amount else 0
      ensures NeverOverflows(rows) ==> MIN_CENTS <= Total(Part(rows, visited + {id}, kind)) <= MAX_CENTS
    {
      PartGrows(rows, visited, id, kind);
      if NeverOverflows(rows) {
        PartInRange(rows, visited + {id}, kind);
      }
    }
  }

  /** Adds the rows up in whatever order the hash map yields them. */
  method Derive(rows: Rows) returns (r: Result<AccountBalances, MoneyError>)
    ensures r.Ok? ==>
              && r.value.working == Balance(rows, WorkingKind)
              && r.value.uncleared == Balance(rows, UnclearedKind)
              && r.value.cleared == Balance(rows, ClearedKind)
              && r.value.reconciled == Balance(rows, ReconciledKind)
    ensures r.Err? ==> r.error == Overflow
    ensures NeverOverflows(rows) ==> r.Ok?
  {
    hide Part, SizesOf, NeverOverflows, Counts;
    var b := AccountBalances(0, 0, 0, 0);
    var visited: set<TransactionId> := {};
    NothingVisited(rows, WorkingKind);
    NothingVisited(rows, UnclearedKind);
    NothingVisited(rows, ClearedKind);
    NothingVisited(rows, ReconciledKind);
    while visited != rows.Keys
      invariant visited <= rows.Keys
      invariant b.working == Total(Part(rows, visited, WorkingKind))
      invariant b.uncleared == Total(Part(rows, visited, UnclearedKind))
      invariant b.cleared == Total(Part(rows, visited, ClearedKind))
      invariant b.reconciled == Total(Part(rows, visited, ReconciledKind))
      decreases |rows.Keys - visited|
    {
      var id :| id in rows.Keys - visited;
      ghost var remaining := rows.Keys - visited;
      Visit(rows, visited, id);
      visited := visited + {id};
      assert rows.Keys - visited < remaining;
      b :- AddRow(b, rows[id]);
    }
    return Ok(b);
  }

  /** The working balance is what is cleared and what is not. */
  lemma {:induction false} BalancesSplit(rows: Rows, visited: set<TransactionId>)
    requires visited <= rows.Keys
    ensures Total(Part(rows, visited, WorkingKind))
         == Total(Part(rows, visited, ClearedKind)) + Total(Part(rows, visited, UnclearedKind))
    decreases |visited|
  {
    if visited == {} {
      NothingVisited(rows, WorkingKind);
      NothingVisited(rows, ClearedKind);
      NothingVisited(rows, UnclearedKind);
    } else {
      var id :| id in visited;
      var others := visited - {id};
      BalancesSplit(rows, others);
      PartGrows(rows, others, id, WorkingKind);
      PartGrows(rows, others, id, ClearedKind);
      PartGrows(rows, others, id, UnclearedKind);
      assert others + {id} == visited;
    }
  }
}
