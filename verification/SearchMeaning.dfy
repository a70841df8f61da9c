/** Which register rows a compiled search selects (`src/app/search.rs`, lines 275-381). */
module SearchMeaning {
  import opened Wrappers
  import opened Cents
  import opened Text
  import opened Calendar
  import opened SearchLanguage
  import opened SearchQuery

  // ----- Rows and conditions ------------------------------------------------------------------

  /** What the SQL reads of a row; `AmountShown` is the amount cast to text. */
  datatype Column =
    | PayeeName | PayeeSnapshot | MemoText | CategoryName | AccountName | GroupName | AmountShown | BookingDate
    | AmountValue | CategoryKey | ImportKey | TransferKey | ClearedState | ApprovalState

  datatype Cell = Null | TextCell(text: string) | IntegerCell(value: int)

  /** A row of the joined tables; its booking date is stored as the text of the date. */
  datatype Row = Row(cells: Column -> Cell, date: Date)

  function SqlName(c: Column): string {
    match c
    case PayeeName => "payees.name"
    case PayeeSnapshot => "transactions.payee_snapshot"
    case MemoText => "transactions.memo"
    case CategoryName => "categories.name"
    case AccountName => "accounts.name"
    case GroupName => "account_groups.name"
    case AmountShown => "CAST(transactions.amount AS TEXT)"
    case BookingDate => "transactions.transaction_date"
    case AmountValue => "transactions.amount"
    case CategoryKey => "transactions.category_id"
    case ImportKey => "transactions.import_batch_id"
    case TransferKey => "transactions.transfer_id"
    case ClearedState => "transactions.cleared_state"
    case ApprovalState => "transactions.approval_state"
  }

  /** The conditions that the compiler writes, as SQL reads them. */
  datatype Condition =
    | IsLike(column: Column)
    | Compares(column: Column, op: string)
    | Absent(column: Column)
    | Present(column: Column)
    | AnyLike(columns: seq<Column>)

  function RenderLike(c: Column): seq<Fragment> {
    [Sql(SqlName(c) + " LIKE "), Placeholder, Sql(" ESCAPE '\\'")]
  }

  function RenderLikes(columns: seq<Column>): seq<Fragment> {
    if columns == [] then []
    else RenderLike(columns[0]) + (if |columns| == 1 then [] else [Sql(" OR ")]) + RenderLikes(columns[1..])
  }

  function Render(c: Condition): seq<Fragment> {
    match c
    case IsLike(column) => RenderLike(column)
    case Compares(column, op) => [Sql(SqlName(column) + " " + op + " "), Placeholder]
    case Absent(column) => [Sql(SqlName(column) + " IS NULL")]
    case Present(column) => [Sql(SqlName(column) + " IS NOT NULL")]
    case AnyLike(columns) => [Sql("(")] + RenderLikes(columns) + [Sql(")")]
  }

  function Arity(c: Condition): nat {
    match c
    case IsLike(_) => 1
    case Compares(_, _) => 1
    case Absent(_) => 0
    case Present(_) => 0
    case AnyLike(columns) => |columns|
  }

  /** The byte order of texts, by which SQL compares them. */
  predicate TextBefore(a: string, b: string) {
    b != "" && (a == "" || a[0] < b[0] || (a[0] == b[0] && TextBefore(a[1..], b[1..])))
  }

  /** An operator decides from whether the left side is smaller and whether the sides are equal; blanks do not matter. */
  predicate OperatorHolds(op: string, less: bool, equal: bool) {
    || (op == "<" && less)
    || (op == "<=" && (less || equal))
    || (op == "=" && equal)
    || (op == "<>" && !equal)
    || (op == ">=" && !less)
    || ((op == ">" || op == " >") && !less && !equal)
  }

  predicate CellLike(cell: Cell, bind: BindValue) {
    cell.TextCell? && bind.TextBind? && Matches(bind.text, cell.text)
  }

  /** Whether a condition is true of a row; one that meets a missing value is not. */
  predicate Holds(c: Condition, row: Row, binds: seq<BindValue>)
    requires |binds| == Arity(c)
  {
    match c
    case IsLike(column) => CellLike(row.cells(column), binds[0])
    case Compares(column, op) =>
      (match row.cells(column)
       case Null => false
       case TextCell(s) => binds[0].TextBind? && OperatorHolds(op, TextBefore(s, binds[0].text), s == binds[0].text)
       case IntegerCell(n) => binds[0].IntegerBind? && OperatorHolds(op, n < binds[0].value, n == binds[0].value))
    case Absent(column) => row.cells(column) == Null
    case Present(column) => row.cells(column) != Null
    case AnyLike(columns) => exists k :: 0 <= k < |columns| && CellLike(row.cells(columns[k]), binds[k])
  }

  // ----- What a term asks for -----------------------------------------------------------------

  /** The cell is a text that holds `v`, up to ASCII case. */
  predicate Shows(cell: Cell, v: string) {
    cell.TextCell? && exists i :: 0 <= i <= |cell.text| && HoldsAt(cell.text, v, i)
  }

  /** A row that a term other than a column search asks for. */
  predicate Wanted(t: SearchTerm, row: Row)
    requires !SearchesColumn(t)
  {
    var cell := row.cells;
    match t
    case Plain(v) =>
      || Shows(cell(PayeeName), v) || Shows(cell(PayeeSnapshot), v) || Shows(cell(MemoText), v) || Shows(cell(CategoryName), v)
      || Shows(cell(AccountName), v) || Shows(cell(AmountShown), v) || Shows(cell(BookingDate), v)
    case Amount(c, value) =>
      cell(AmountValue).IntegerCell?
      && var n := cell(AmountValue).value;
         (match c
          case Less => n < value
          case LessEqual => n <= value
          case Equal => n == value
          case GreaterEqual => n >= value
          case Greater => n > value)
    case BeforeDate(d) => Before(row.date, d)
    case AfterDate(d) => Before(d, row.date)
    case FromDate(d) => !Before(row.date, d)
    case ThroughDate(d) => !Before(d, row.date)
    case Uncategorized(b) => b == (cell(CategoryKey) == Null)
    case IsReconciled(b) => cell(ClearedState).TextCell? && b == (cell(ClearedState).text == "reconciled")
    case Imported(b) => b == (cell(ImportKey) != Null)
    case IsTransfer(b) => b == (cell(TransferKey) != Null)
    case IsCleared(b) => cell(ClearedState).TextCell? && b == (cell(ClearedState).text != "uncleared")
    case IsApproved(b) => cell(ApprovalState) == TextCell(if b then "approved" else "unapproved")
  }

  predicate IsDateTerm(t: SearchTerm) {
    t.BeforeDate? || t.AfterDate? || t.FromDate? || t.ThroughDate?
  }

  /** A row as it is stored: states are texts or missing, the amount is a number, the date its text. */
  predicate Stored(dates: DateText, row: Row) {
    && row.cells(BookingDate) == TextCell(dates.show(row.date))
    && !row.cells(AmountValue).TextCell?
    && !row.cells(ClearedState).IntegerCell? && !row.cells(ApprovalState).IntegerCell?
  }

  /** The texts of a term's date and of the row's date are ordered as the dates are. */
  predicate OrderedAsText(dates: DateText, t: SearchTerm, row: Row) {
    IsDateTerm(t) ==>
      && (TextBefore(dates.show(row.date), dates.show(t.date)) <==> Before(row.date, t.date))
      && (dates.show(row.date) == dates.show(t.date) <==> row.date == t.date)
  }

  lemma DatesCompare(a: Date, b: Date)
    ensures Before(b, a) <==> !Before(a, b) && a != b
  {
  }

  /** The condition that a term's clause is. */
  function ConditionOf(t: SearchTerm): Condition
    requires !SearchesColumn(t)
  {
    match t
    case Plain(_) =>
      AnyLike([PayeeName, PayeeSnapshot, MemoText, CategoryName, AccountName, AmountShown, BookingDate])
    case Amount(c, _) => Compares(AmountValue, ComparisonText(c))
    case BeforeDate(_) => Compares(BookingDate, "<")
    case AfterDate(_) => Compares(BookingDate, " >")
    case FromDate(_) => Compares(BookingDate, ">=")
    case ThroughDate(_) => Compares(BookingDate, "<=")
    case Uncategorized(b) => if b then Absent(CategoryKey) else Present(CategoryKey)
    case IsReconciled(b) => Compares(ClearedState, if b then "=" else "<>")
    case Imported(b) => if b then Present(ImportKey) else Absent(ImportKey)
    case IsTransfer(b) => if b then Present(TransferKey) else Absent(TransferKey)
    case IsCleared(b) => Compares(ClearedState, if b then "<>" else "=")
    case IsApproved(_) => Compares(ApprovalState, "=")
  }

  lemma NullTexts(column: Column)
    ensures IsNull(SqlName(column), false) == Render(Absent(column))
    ensures IsNull(SqlName(column), true) == Render(Present(column))
  {
    assert SqlName(column) + " IS " + "" + "NULL" == SqlName(column) + " IS NULL";
    assert SqlName(column) + " IS " + "NOT " + "NULL" == SqlName(column) + " IS NOT NULL";
  }

  lemma ComparedText(column: Column, op: string)
    ensures Compared(SqlName(column), op) == Render(Compares(column, op))
  {
  }

  lemma {:induction false} LikesText(columns: seq<Column>, names: seq<string>)
    requires |columns| == |names| && forall k :: 0 <= k < |columns| ==> names[k] == SqlName(columns[k])
    ensures LikeAny(names) == RenderLikes(columns)
  {
    hide SqlName;
    if columns != [] {
      LikesText(columns[1..], names[1..]);
    }
  }

  lemma PlainText()
    ensures [Sql("(")] + LikeAny(TextColumns()) + [Sql(")")]
         == Render(AnyLike([PayeeName, PayeeSnapshot, MemoText, CategoryName, AccountName, AmountShown, BookingDate]))
  {
    LikesText([PayeeName, PayeeSnapshot, MemoText, CategoryName, AccountName, AmountShown, BookingDate], TextColumns());
  }

  lemma {:induction false} ClauseIsCondition(t: SearchTerm)
    requires !SearchesColumn(t)
    ensures Clause(t) == Render(ConditionOf(t))
  {
    hide LikeAny, Compared, IsNull, Render;
    PlainText();
    match t
    case Plain(_) =>
    case Uncategorized(_) => NullTexts(CategoryKey);
    case Imported(_) => NullTexts(ImportKey);
    case IsTransfer(_) => NullTexts(TransferKey);
    case Amount(c, _) => ComparedText(AmountValue, ComparisonText(c));
    case BeforeDate(_) => ComparedText(BookingDate, "<");
    case AfterDate(_) => ComparedText(BookingDate, " >");
    case FromDate(_) => ComparedText(BookingDate, ">=");
    case ThroughDate(_) => ComparedText(BookingDate, "<=");
    case IsReconciled(b) => ComparedText(ClearedState, if b then "=" else "<>");
    case IsCleared(b) => ComparedText(ClearedState, if b then "<>" else "=");
    case IsApproved(_) => ComparedText(ApprovalState, "=");
  }

  lemma LikeShows(cell: Cell, v: string)
    ensures CellLike(cell, TextBind(Like(v))) <==> Shows(cell, v)
  {
    if cell.TextCell? {
      LikeFindsSubstring(v, cell.text);
    }
  }

  lemma {:induction false} PlainSelects(v: string, row: Row)
    ensures Holds(ConditionOf(Plain(v)), row, Repeat(TextBind(Like(v)), 7)) <==> Wanted(Plain(v), row)
  {
    hide CellLike, Shows, Like, Repeat;
    var columns := [PayeeName, PayeeSnapshot, MemoText, CategoryName, AccountName, AmountShown, BookingDate];
    var binds := Repeat(TextBind(Like(v)), 7);
    forall k | 0 <= k < 7
      ensures CellLike(row.cells(columns[k]), binds[k]) <==> Shows(row.cells(columns[k]), v)
    {
      LikeShows(row.cells(columns[k]), v);
    }
    assert columns[0] == PayeeName && columns[1] == PayeeSnapshot && columns[2] == MemoText && columns[3] == CategoryName;
    assert columns[4] == AccountName && columns[5] == AmountShown && columns[6] == BookingDate;
  }

  lemma BindsFit(dates: DateText, t: SearchTerm)
    requires !SearchesColumn(t)
    ensures |Binds(dates, t)| == Arity(ConditionOf(t))
    ensures t.Plain? ==> Binds(dates, t) == Repeat(TextBind(Like(t.text)), 7)
  {
    hide Like;
  }

  lemma DateSelects(dates: DateText, t: SearchTerm, row: Row)
    requires IsDateTerm(t) && Stored(dates, row) && OrderedAsText(dates, t, row)
    ensures |Binds(dates, t)| == Arity(ConditionOf(t))
    ensures Holds(ConditionOf(t), row, Binds(dates, t)) <==> Wanted(t, row)
  {
    DatesCompare(row.date, t.date);
    hide TextBefore, Before;
  }

  lemma OtherSelects(dates: DateText, t: SearchTerm, row: Row)
    requires !SearchesColumn(t) && !IsDateTerm(t) && !t.Plain? && Stored(dates, row)
    ensures |Binds(dates, t)| == Arity(ConditionOf(t))
    ensures Holds(ConditionOf(t), row, Binds(dates, t)) <==> Wanted(t, row)
  {
    hide TextBefore, Before;
  }

  /** The clause and the bindings of one term select exactly the rows that the term asks for. */
  lemma {:induction false} TermSelects(dates: DateText, t: SearchTerm, row: Row)
    requires !SearchesColumn(t) && Stored(dates, row) && OrderedAsText(dates, t, row)
    ensures Clause(t) == Render(ConditionOf(t)) && |Binds(dates, t)| == Arity(ConditionOf(t))
    ensures Holds(ConditionOf(t), row, Binds(dates, t)) <==> Wanted(t, row)
  {
    ClauseIsCondition(t);
    BindsFit(dates, t);
    hide Clause, Render, Holds, Wanted, Binds, OrderedAsText, Stored;
    match t
    case Plain(v) => PlainSelects(v, row);
    case BeforeDate(_) => DateSelects(dates, t, row);
    case AfterDate(_) => DateSelects(dates, t, row);
    case FromDate(_) => DateSelects(dates, t, row);
    case ThroughDate(_) => DateSelects(dates, t, row);
    case _ => OtherSelects(dates, t, row);
  }

  // ----- A whole search -----------------------------------------------------------------------

  /** Conditions joined by AND. */
  function RenderAll(conditions: seq<Condition>): seq<Fragment> {
    if conditions == [] then []
    else
      var n := |conditions| - 1;
      (if n == 0 then [] else RenderAll(conditions[..n]) + [Sql(" AND ")]) + Render(conditions[n])
  }

  function ArityAll(conditions: seq<Condition>): nat {
    if conditions == [] then 0 else ArityAll(conditions[..|conditions| - 1]) + Arity(conditions[|conditions| - 1])
  }

  /** Each condition takes its bindings in order; all of them must hold. */
  predicate HoldAll(conditions: seq<Condition>, row: Row, binds: seq<BindValue>)
    requires |binds| == ArityAll(conditions)
  {
    conditions == []
    || var n := |conditions| - 1;
       var m := ArityAll(conditions[..n]);
       HoldAll(conditions[..n], row, binds[..m]) && Holds(conditions[n], row, binds[m..])
  }

  function ConditionsOf(ast: SearchAst): (r: seq<Condition>)
    requires forall i :: 0 <= i < |ast| ==> !SearchesColumn(ast[i])
    ensures |r| == |ast| && forall i :: 0 <= i < |ast| ==> r[i] == ConditionOf(ast[i])
  {
    seq(|ast|, i requires 0 <= i < |ast| => ConditionOf(ast[i]))
  }

  /**
   A compiled search that searches no single text column is the conjunction of its terms' conditions,
   and selects exactly the rows that every term asks for.
   */
  lemma {:induction false} PlanSelects(dates: DateText, ast: SearchAst, row: Row)
    requires Stored(dates, row)
    requires forall i :: 0 <= i < |ast| ==> !SearchesColumn(ast[i]) && OrderedAsText(dates, ast[i], row)
    ensures var plan, conditions := PlanOf(dates, ast), ConditionsOf(ast);
            && plan.whereSql == RenderAll(conditions)
            && |plan.binds| == ArityAll(conditions)
            && (HoldAll(conditions, row, plan.binds) <==> forall i :: 0 <= i < |ast| ==> Wanted(ast[i], row))
  {
    hide Clause, Binds, Render, Holds, Wanted, ConditionOf, SearchesColumn, OrderedAsText, Stored;
    if ast != [] {
      var init, last := ast[..|ast| - 1], ast[|ast| - 1];
      PlanSelects(dates, init, row);
      TermSelects(dates, last, row);
      assert ConditionsOf(ast)[..|init|] == ConditionsOf(init);
      var plan, before := PlanOf(dates, ast), PlanOf(dates, init);
      assert plan.binds == before.binds + Binds(dates, last);
      assert plan.binds[..|before.binds|] == before.binds && plan.binds[|before.binds|..] == Binds(dates, last);
      assert forall i :: 0 <= i < |init| ==> ast[i] == init[i];
    }
  }

  /** The column that a column search searches. */
  function SearchedColumn(t: SearchTerm): Column
    requires SearchesColumn(t)
  {
    if t.Account? then AccountName
    else if t.AccountGroup? then GroupName
    else if t.Category? then CategoryName
    else if t.Payee? then PayeeName
    else MemoText
  }

  /**
   A column search would select the rows whose column holds the text if it wrote its escape clause
   with one backslash; it differs from that in the escape clause alone.
   */
  lemma {:induction false} ColumnTermSelects(dates: DateText, t: SearchTerm, row: Row)
    requires SearchesColumn(t)
    ensures var clause, column := Clause(t), SearchedColumn(t);
            && |clause| == 3 && clause[2] == Sql(" ESCAPE '\\\\'")
            && clause[..2] + [Sql(" ESCAPE '\\'")] == Render(IsLike(column))
            && |Binds(dates, t)| == 1
            && (Holds(IsLike(column), row, Binds(dates, t)) <==> Shows(row.cells(column), t.text))
  {
    LikeShows(row.cells(SearchedColumn(t)), t.text);
    hide Like, Matches, CellLike, Shows;
  }
}
