/** The register's running balances (`src/calculation/balances.rs`, lines 38-54). */
module RunningBalances {
  import opened Wrappers
  import opened Cents
  import opened Calendar
  import opened Entities
  import opened Sums
  import opened Balances

  type Register = seq<(TransactionId, Money)>

  /** Register order: by date, then by identifier. */
  predicate Earlier(rows: Rows, a: TransactionId, b: TransactionId)
    requires a in rows && b in rows
  {
    Before(rows[a].date, rows[b].date) || (rows[a].date == rows[b].date && a < b)
  }

  predicate Ordered(rows: Rows, ids: seq<TransactionId>) {
    && (forall i :: 0 <= i < |ids| ==> ids[i] in rows)
    && (forall i, j :: 0 <= i < j < |ids| ==> Earlier(rows, ids[i], ids[j]))
  }

  function InsertId(rows: Rows, ids: seq<TransactionId>, id: TransactionId): (r: seq<TransactionId>)
    requires id in rows && id !in ids && Ordered(rows, ids)
    ensures Ordered(rows, r)
    ensures forall x :: x in r <==> x in ids || x == id
  {
    if ids == [] then [id]
    else if Earlier(rows, id, ids[0]) then [id] + ids
    else
      var rest := InsertId(rows, ids[1..], id);
      assert forall x :: x in rest ==> Earlier(rows, ids[0], x);
      [ids[0]] + rest
  }

  /** The contributing rows up to and including `id` in register order. */
  function UpTo(rows: Rows, id: TransactionId): set<TransactionId>
    requires id in rows
  {
    set x | x in rows && rows[x].Contributes() && !Earlier(rows, id, x)
  }

  /** What the register shows beside a row: everything that counts up to that row. */
  ghost function BalanceAt(rows: Rows, id: TransactionId): int
    requires id in rows
  {
    Total(Part(rows, UpTo(rows, id), WorkingKind))
  }

  method OrderRows(rows: Rows) returns (ids: seq<TransactionId>)
    ensures Ordered(rows, ids)
    ensures forall id :: id in ids <==> id in rows && rows[id].Contributes()
  {
    ids := [];
    var visited: set<TransactionId> := {};
    while visited != rows.Keys
      invariant visited <= rows.Keys && Ordered(rows, ids)
      invariant forall id :: id in ids <==> id in visited && rows[id].Contributes()
      decreases |rows.Keys - visited|
    {
      var id :| id in rows.Keys - visited;
      ghost var remaining := rows.Keys - visited;
      if rows[id].Contributes() {
        ids := InsertId(rows, ids, id);
      }
      visited := visited + {id};
      assert rows.Keys - visited < remaining;
    }
  }

  /** The ids before position `i` of the register. */
  ghost function Shown(ids: seq<TransactionId>, i: nat): set<TransactionId>
    requires i <= |ids|
  {
    set k | 0 <= k < i :: ids[k]
  }

  lemma ShownIsUpTo(rows: Rows, ids: seq<TransactionId>, i: nat)
    requires Ordered(rows, ids) && i < |ids|
    requires forall id :: id in ids <==> id in rows && rows[id].Contributes()
    ensures Shown(ids, i + 1) == Shown(ids, i) + {ids[i]} == UpTo(rows, ids[i])
    ensures ids[i] !in Shown(ids, i)
  {
    forall x | x in rows && rows[x].Contributes()
      ensures x in Shown(ids, i + 1) <==> !Earlier(rows, ids[i], x)
    {
      var k :| 0 <= k < |ids| && ids[k] == x;
    }
  }

  lemma OrderedRows(rows: Rows, ids: seq<TransactionId>)
    requires Ordered(rows, ids)
    ensures forall i :: 0 <= i < |ids| ==> ids[i] in rows
    ensures forall i, j :: 0 <= i < j < |ids| ==> Earlier(rows, ids[i], ids[j])
  {
  }

  lemma EverythingShown(rows: Rows, ids: seq<TransactionId>)
    requires forall id :: id in ids <==> id in rows && rows[id].Contributes()
    ensures Total(Part(rows, Shown(ids, |ids|), WorkingKind)) == Balance(rows, WorkingKind)
  {
    assert Part(rows, Shown(ids, |ids|), WorkingKind) == Part(rows, rows.Keys, WorkingKind);
  }

  /**
   One line for each contributing row in register order, with the sum of everything up to it; an
   overflow is reported exactly when some such sum has no 64-bit value. The last line shows the
   working balance.
   */
  method RunningBalances(rows: Rows) returns (r: Result<Register, MoneyError>)
    ensures r.Ok? ==>
              && (forall i :: 0 <= i < |r.value| ==>
                    r.value[i].0 in rows && r.value[i].1 == BalanceAt(rows, r.value[i].0))
              && (forall i, j :: 0 <= i < j < |r.value| ==> Earlier(rows, r.value[i].0, r.value[j].0))
              && (forall id :: id in rows && rows[id].Contributes() <==>
                    exists i :: 0 <= i < |r.value| && r.value[i].0 == id)
              && Balance(rows, WorkingKind) == if r.value == [] then 0 else r.value[|r.value| - 1].1
    ensures r.Ok? <==> forall id :: id in rows && rows[id].Contributes() ==> InRange(BalanceAt(rows, id))
    ensures r.Err? ==> r.error == Overflow
  {
    hide Part, Ordered, UpTo;
    var ids := OrderRows(rows);
    OrderedRows(rows, ids);
    var lines: Register := [];
    var balance: Money := 0;
    NothingVisited(rows, WorkingKind);
    assert Shown(ids, 0) == {};
    for i := 0 to |ids|
      invariant |lines| == i
      invariant balance == Total(Part(rows, Shown(ids, i), WorkingKind))
      invariant forall k :: 0 <= k < i ==> lines[k] == (ids[k], BalanceAt(rows, ids[k]))
      invariant i > 0 ==> balance == lines[i - 1].1
    {
      ShownIsUpTo(rows, ids, i);
      PartGrows(rows, Shown(ids, i), ids[i], WorkingKind);
      assert rows[ids[i]].Contributes();
      assert BalanceAt(rows, ids[i]) == balance + rows[ids[i]].amount;
      balance :- CheckedAdd(balance, rows[ids[i]].amount);
      lines := lines + [(ids[i], balance)];
    }
    EverythingShown(rows, ids);
    return Ok(lines);
  }
}
